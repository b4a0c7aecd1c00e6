# watup core in Dafny

A model of the deterministic data-shaping rules of watup. watup is a pipeline that scrapes
Reddit, filters and classifies posts, groups them into themes and writes layered
summaries. The Reddit client (PRAW) and the OpenAI client are not modelled. Each becomes a
parameter of the operation that calls it:
- a listing function `top(name, limit, time_filter)`;
- comment forests whose nodes say whether `refresh()` fails;
- a `fetch(post_id)` that may fail;
- a classifier and a text model that may fail.

The rest is modelled as pure functions over immutable datatypes, and lemmas prove
properties of those functions.

| module | file | what it models |
|---|---|---|
| `Base` | base.dfy | `Option`, `Result` and the exceptions the code raises |
| `Text` | text.dfy | `sep.join`, `c * n`, `str(int)` (with a reader proving it injective) |
| `Seqs` | seqs.dfy | Python slicing and negative indexing. Also insertion-ordered `dict` as an association list whose assignment keeps an existing key's position, and the comprehension patterns the code uses |
| `Records` | records.dfy | the scraped post and comment records; keys read with `.get` are `Option`s |
| `Forum` | forum.dfy | the PRAW side: comment forests with "load more" markers, submissions, listings |
| `Formatter` | formatter.dfy | `count_data_stats`, `format_comment_tree`, `format_json_data`, the returned text of `format_reddit_data` |
| `PostFilter` | post_filter.dfy | `filter_by_metrics`, batching and pairing in `filter_posts` / `process_batch`, `get_informative_posts` |
| `Scraper` | scraper.dfy | `RedditScraper`: configuration fallback, reply collection with truncation, top comments, top posts, the scrape loop, the API request count |
| `Corpus` | corpus.dfy | `utils.py`: `Post`, `Posts`, `DailyPosts`, `TopicRecommendations` |
| `LegacyPosts` | legacy_posts.dfy | the duplicate classes of `posts.py`, proved equal to the `utils.py` ones |
| `PostSummarizer` | post_summarizer.dfy | `summarize_theme_posts` and the append-only ledger of `save_summary_to_json` |
| `CommentSummarizer` | comment_summarizer.dfy | `get_comments_for_post`, `get_theme_comments`, `summarize_comments`, the prompt of the `__main__` block |
| `Markdown` | markdown.dfy | the text `json_to_markdown` writes |
| `Pipeline` | pipeline.dfy | how the stages fit: scraper output against formatter, filter and corpus loader |

## Behaviours the model follows

- **The ledger appends.** `save_summary_to_json` appends each new entry to the file's list
  (reddit/post_summarizer.py:139), so saving a theme twice leaves two entries
  (`PostSummarizer.SavingTwiceAppendsTwice`).
- **Unknown post ids are skipped, not rejected.** `summarize_theme_posts` skips ids that
  are not in the corpus when it builds the prompt (reddit/post_summarizer.py:86-87), and it
  copies the theme's ids verbatim into the saved entry.
- **Negative theme indices are accepted.** They select from the end, as Python indexing
  does. Only an index at or above the number of themes is rejected with a `ValueError`.
- **The scraper never records `upvote_ratio`.** `filter_by_metrics` reads a missing ratio
  as 0, so it rejects every post the scraper builds (`Pipeline.ScrapedPostsFailMetrics`,
  `Pipeline.FilterScraped`). The two modules are not chained in the code's own driver, so
  this is stated as a property of the code, not as a defect.
- **Only the first theme is summarized.** The comment-summary `__main__` loop ends with
  `break`, so only the first theme reaches the model (`CommentSummarizer.CommentMainFirstOnly`).

## Model

| member | source | states |
|---|---|---|
| Formatter.CountReplies | reddit/formatter.py:19-23 | a comment without a `replies` key counts 0; otherwise every direct reply counts at least once |
| Formatter.CountRepliesIsDescendants | reddit/formatter.py:19-23 | `count_replies(c)` is the number of strict descendants of `c` in its pre-order traversal; a missing `replies` key contributes none |
| Formatter.CountRepliesAllIsDescendants | reddit/formatter.py:19-23 | over a list of comments, the summed reply counts plus the list length is the size of their pre-order traversal |
| Formatter.PostsStats | reddit/formatter.py:26-31 | one subreddit contributes exactly one post count per post |
| Formatter.CountDataStats | reddit/formatter.py:5-37 | the `posts` total is the number of posts over all subreddits |
| Formatter.PostsStatsOfTag | reddit/formatter.py:26-31 | the counts of one subreddit are its number of posts, their top-level comments (missing `comments` as none) and their replies |
| Formatter.AllCountsAppend | reddit/formatter.py:25-31 | comment and reply totals are additive over concatenated post lists |
| Formatter.CountDataStatsSums | reddit/formatter.py:25-37 | `posts` is the number of posts over all subreddits, `comments` the summed top-level comment counts, `replies` the summed `count_replies` over all top-level comments |
| Formatter.StatsExample | reddit/formatter.py:15-37 | two posts of two comments with one leaf reply each count as 2 posts, 4 comments, 4 replies |
| Formatter.TwoRepliesPerPost | reddit/formatter.py:26-31 | a post with two comments each having one leaf reply counts as 1 post, 2 comments, 2 replies |
| Formatter.FormatCommentTree | reddit/formatter.py:39-60 | a rendering opens with the node's own `└─` body line, which starts with a newline |
| Formatter.FormatCommentTreeIsPreOrder | reddit/formatter.py:39-60 | a tree rendered at level k is the newline join of two lines per node in pre-order: the `└─` body line and the `Score: s \| Author: a` line, each node at depth d indented 2+4(k+d) spaces |
| Formatter.TreeWithRepliesIsPreOrder | reddit/formatter.py:50-60 | a node with replies renders its own two lines, then its replies one level deeper, in order |
| Formatter.TreeRendersOwnThenReplies | reddit/formatter.py:50-60 | a node's rendering joins its own two lines with its replies' renderings at indent + 4 |
| Formatter.RepliesOneLevelDeeper | reddit/formatter.py:57-58 | rendering replies at indent + 4 is rendering them one nesting level deeper |
| Formatter.TreeLinesOwnThenDescendants | reddit/formatter.py:50-58 | the pre-order lines of a node are its own two lines followed by those of its descendants |
| Formatter.FormatRepliesIsPreOrder | reddit/formatter.py:57-60 | a list of sibling trees renders as the pre-order lines of all of them |
| Formatter.LinesOfAppend | reddit/formatter.py:57-60 | the lines of a concatenated node list are the two line lists concatenated |
| Formatter.FormatJsonPost | reddit/formatter.py:123-133 | a record is built exactly when `selftext`, `score` and `num_comments` are present; the first missing one raises |
| Formatter.FormatJsonPosts | reddit/formatter.py:116-134 | a successful subreddit export has one record per post |
| Formatter.FormatJsonData | reddit/formatter.py:103-136 | a successful export has one record per post over all subreddits |
| Formatter.FormatJsonPostsSpec | reddit/formatter.py:116-134 | one subreddit's posts give one record each, in order, exactly when all have the required keys |
| Formatter.FormatJsonDataSpec | reddit/formatter.py:113-136 | one record per post, in subreddit then post order. Each record holds the post's id, url, score, author, time and comment count. `post_content` is `selftext` when non-empty, else `title`; `subreddit` is the map key; `comments` is the newline join of the rendered top-level trees. It succeeds exactly when every post has the keys |
| Formatter.DescribesAllAppend | reddit/formatter.py:115-134 | record lists describing two post lists describe their concatenation |
| Formatter.FormatJsonDataCountsPosts | reddit/formatter.py:113-136 | the number of JSON records equals the `posts` statistic |
| Formatter.CheckPrintable | reddit/formatter.py:88-96 | a post can be printed exactly when `score`, `num_comments` and `comments` are present |
| Formatter.PostsLinesOk | reddit/formatter.py:88-99 | a subreddit's text is produced exactly when every post has the keys read with `[...]` |
| Formatter.AllLines | reddit/formatter.py:84-99 | the lines of all subreddits are produced exactly when every post of every subreddit has `score`, `num_comments` and `comments` |
| Formatter.FormatRedditData | reddit/formatter.py:62-101 | the returned text is produced exactly when every post of every subreddit has the keys read with `[...]`; a missing one raises |
| Formatter.PostsLinesNumbered | reddit/formatter.py:88-99 | a subreddit's lines are the posts' blocks in order, the j-th numbered `number + j` |
| Formatter.PostsLinesCons | reddit/formatter.py:88-99 | the lines of a post list are the first post's block followed by the rest numbered one higher |
| Formatter.NumberedBlocksAt | reddit/formatter.py:88-94 | block j is the j-th post's lines, numbered `number + j` |
| Formatter.SubredditNumberedFromOne | reddit/formatter.py:84-99 | a subreddit's section is its heading, an 80-dash rule, then its posts' blocks numbered from 1 |
| PostFilter.MeetsMetrics | reddit/post_filter_agent.py:117-122 | a post passes only when it has all three metrics, since a missing one reads as 0 |
| PostFilter.FilterByMetrics | reddit/post_filter_agent.py:117-122 | the result is an order-preserving subsequence of the input holding every post that meets all three thresholds as many times as the input does, and no other post |
| PostFilter.MetricsBoundary | reddit/post_filter_agent.py:119-121 | score 20, 5 comments and ratio 0.7 pass (inclusive bounds); one unit below any threshold fails; a missing metric counts as 0 and fails |
| PostFilter.Chunk | reddit/post_filter_agent.py:91 | the batches concatenate back to the input; none is empty or larger than `batch_size`; all but the last have exactly `batch_size` posts |
| PostFilter.ProcessBatch | reddit/post_filter_agent.py:47-75 | the output is the batch with each post flagged: True only for a post with non-empty `selftext` whose classifier result is the boolean True, every flag False when the batch-level handler fires. Exactly the posts with text are sent to the classifier, in order |
| PostFilter.ClassifiedAppend | reddit/post_filter_agent.py:95-96 | flagging two lists and concatenating pairs each output with its input position |
| PostFilter.FilterPosts | reddit/post_filter_agent.py:88-102 | empty input gives `[]`. Batch size 0 raises (zero `range` step); a negative size gives `[]`. Otherwise the output has one flagged copy per input post, in order. Without the outer handler it is the concatenation of the batches' results, each computed from its own batch and its own failure; with exact flags when no batch fails. An outer failure returns every post flagged False |
| PostFilter.ProcessBatches | reddit/post_filter_agent.py:91-96 | processing the batches one after another gives their results concatenated, each post paired with its input position |
| PostFilter.BatchedAt | reddit/post_filter_agent.py:91-96 | post j of batch k is input post k·n+j, and its output is flagged by its own verdict unless its own batch failed, so one failing batch leaves the others' flags alone |
| PostFilter.GetInformativePosts | reddit/post_filter_agent.py:141-151 | raises exactly when `batch_size < 1`, before any other work; empty input gives `[]`; every returned post met the metrics and is the flagged copy of the corresponding filtered post |
| Scraper.LoadSettings | reddit/reddit_scraper.py:25-39 | a configuration that cannot be loaded, or lacks `scraping` or `subreddits`, gives limits 5/5/5/5, `"day"` and no subreddits; otherwise the file's values |
| Scraper.NewScraper | reddit/reddit_scraper.py:20-39 | construction raises exactly when authentication fails, and otherwise loads the settings |
| Scraper.GetCommentReplies | reddit/reddit_scraper.py:98-119 | depth ≤ 0 gives `[]` with no request; otherwise at least the `refresh` request, and exactly that one with `[]` when the refresh fails; never more replies than the `replies_limit` slice keeps |
| Scraper.CollectReplies | reddit/reddit_scraper.py:106-115 | a loop that completes yields one entry per visited reply |
| Scraper.CollectRepliesSiblings | reddit/reddit_scraper.py:106-119 | the loop completes exactly when no visited reply is a "load more" marker, and each sibling's entry depends only on its own source comment, so one failing refresh empties only that sibling's replies |
| Scraper.RepliesAreTruncation | reddit/reddit_scraper.py:98-119 | every collected reply list is a truncation of the source. It is `[]` when the depth is spent, when the refresh fails, or when the `replies_limit` slice reaches a "load more" marker. Otherwise it has exactly as many entries as the slice, in order, each with the same id, author, body, score and creation time, recursively one level shallower |
| Scraper.TruncationOfSiblings | reddit/reddit_scraper.py:106-116 | siblings built from their own truncations form a truncation of the parent's replies |
| Scraper.TruncationHeight | reddit/reddit_scraper.py:98-113 | a truncation under depth d is at most d levels deep |
| Scraper.HeightBound | reddit/reddit_scraper.py:106-113 | a reply list is one level deeper than its deepest entry's replies |
| Scraper.RepliesDepthBounded | reddit/reddit_scraper.py:98-113 | replies under a comment nest at most `comment_depth` levels deep |
| Scraper.TruncationBreadth | reddit/reddit_scraper.py:106 | no list in a truncation has more than `replies_limit` entries |
| Scraper.RepliesBreadthBounded | reddit/reddit_scraper.py:106 | no collected reply list, at any level, has more than `replies_limit` entries |
| Scraper.RepliesRequestsBounded | reddit/reddit_scraper.py:102-115 | collecting replies makes at most 1 + limit·(requests one level down) requests, whatever the source tree |
| Scraper.CollectRequestsBounded | reddit/reddit_scraper.py:106-115 | a loop over `count` replies makes at most `count` times the per-reply bound of requests |
| Scraper.RepliesRequestsExact | reddit/reddit_scraper.py:98-119 | when no visited reply slice holds a "load more" marker, the requests spent are exactly one per refresh, counted on the collected tree: none when the depth is spent, otherwise one plus those of every collected reply one level down |
| Scraper.CollectRequestsExact | reddit/reddit_scraper.py:106-115 | a loop over marker-free siblings completes and spends exactly the refreshes of the replies it collected |
| Scraper.GetTopComments | reddit/reddit_scraper.py:132-152 | at least the `replace_more` request; when it fails, exactly that one and no comments; otherwise as many comments as the `comments_limit` slice of the marker-free forest keeps |
| Scraper.TopCommentsArePrefix | reddit/reddit_scraper.py:137-147 | the i-th top-level comment is built from the i-th source comment, with its replies collected to `comment_depth` |
| Scraper.TopCommentsRequests | reddit/reddit_scraper.py:132-152 | with no marker in a visited reply slice, one `replace_more` request plus exactly the refreshes of the collected comments' replies |
| Scraper.CollectPosts | reddit/reddit_scraper.py:67-80 | one record per yielded submission, in order, each with its top comments and no `upvote_ratio` |
| Scraper.GetTopPosts | reddit/reddit_scraper.py:61-85 | one request for the listing plus at least one per listed submission; a failing listing gives `[]`; otherwise the i-th post is the record of the i-th submission with its top comments |
| Scraper.CollectPostsRequests | reddit/reddit_scraper.py:67-80 | with no marker in a visited reply slice, the posts cost one `replace_more` each plus their comments' refreshes, exactly |
| Scraper.TopPostsRequests | reddit/reddit_scraper.py:61-85 | with no marker in a visited reply slice, one listing request plus exactly what the returned records show; when the listing fails part-way, the posts yielded before the failure still count although none is returned |
| Scraper.ScrapeLoopSpec | reddit/reddit_scraper.py:162-170 | the loop adds one key per subreddit, maps each to its fetched posts, leaves other keys untouched, and spends exactly the requests of one fetch per listed subreddit, repeated names included |
| Scraper.ScrapeAllSpec | reddit/reddit_scraper.py:162-170 | the result has exactly the configured subreddits as keys, each mapped to its fetch, `[]` when the listing fails; the requests are exactly those of one fetch per configured subreddit |
| Scraper.ScrapeAllSubreddits | reddit/reddit_scraper.py:162-170 | the result has exactly one key per configured subreddit |
| Forum.DropMarkers | reddit/reddit_scraper.py:134 | `replace_more(limit=0)` keeps the comment nodes in order, each as many times as it occurs, and removes the markers |
| Corpus.MakePost | reddit/utils.py:15-20 | a post is built exactly when all five keys are present, and `post_id` is checked first |
| Corpus.LoadPosts | reddit/utils.py:34-38 | loading succeeds exactly when every record is complete, giving one post per record in file order |
| Corpus.Stringify | reddit/utils.py:22-23 | a rendering starts with `Post: ` |
| Corpus.StringifyFirstLine | reddit/utils.py:22-23 | the first line of a rendering is `Post: ` and the id |
| Corpus.StringifyLastLine | reddit/utils.py:22-23 | the last line of a rendering is `Score: ` and the score |
| Corpus.GatherPosts | reddit/utils.py:48-50 | no posts gather to `""`, one post to its bare rendering, and any non-empty corpus starts with `Post: ` |
| Corpus.GatherPostsAppend | reddit/utils.py:48-50 | gathering splits at any point into the halves joined by `\n---\n` |
| Corpus.ReprIsGather | reddit/utils.py:44-50 | `Posts.__repr__` and `DailyPosts.gather_posts` produce the same text |
| Corpus.LoadThemes | reddit/utils.py:58-62 | a file without `themes` raises; otherwise its theme list |
| Corpus.GetPostIdsForTheme | reddit/utils.py:68-73 | the ids of the first theme with that name, `[]` when none has it |
| Seqs.PutAllKeyOrder | reddit/comment_summarizer.py:80-85 | a dictionary filled by `d[key] = value` for the elements with a value lists its keys in the order each first gets one; reassignment never moves a key |
| Seqs.PutAllFirstKey | reddit/comment_summarizer.py:109-119 | the first key of such a dictionary is that of the first element with a value |
| Text.IntToStringReadsBack | reddit/utils.py:23 | `str(score)` is an optional minus sign and digits that read back to the score |
| Text.IntToStringInjective | reddit/utils.py:23 | distinct scores render differently |
| Text.JoinAppend | reddit/utils.py:50 | joining a concatenation is joining each half and putting the separator between them |
| LegacyPosts.Stringify | reddit/posts.py:15-19 | the duplicate `stringify` renders exactly as the `utils.py` one |
| LegacyPosts.MakePost | reddit/posts.py:8-13 | the duplicate constructor builds the same post or reports the same missing key |
| LegacyPosts.LoadPosts | reddit/posts.py:27-31 | the duplicate loader gives the same result for every file |
| LegacyPosts.GatherPosts | reddit/posts.py:40-43 | the duplicate `gather_posts` gives the same text for every corpus |
| LegacyPosts.ReprGathers | reddit/posts.py:37-43 | the duplicate `__repr__`, built by recursion over the list, gives the text the `utils.py` `gather_posts` gives |
| LegacyPosts.ReprCons | reddit/posts.py:37-38 | the duplicate `__repr__` is the first post, the separator, then the rest |
| LegacyPosts.ReprAgrees | reddit/posts.py:37-38 | the duplicate `__repr__` gives the same text as the `utils.py` one |
| PostSummarizer.IndexById | reddit/post_summarizer.py:75 | the id index holds exactly the ids of the corpus |
| PostSummarizer.IndexByIdLastWins | reddit/post_summarizer.py:75 | with duplicate ids, the last post carrying an id is the one indexed |
| PostSummarizer.ThemePrompt | reddit/post_summarizer.py:85-91 | the prompt is empty exactly when none of the theme's ids is in the corpus |
| PostSummarizer.KnownIds | reddit/post_summarizer.py:86-87 | the known ids are exactly the theme's ids present in the corpus |
| PostSummarizer.ThemePromptIsKnownBlocks | reddit/post_summarizer.py:85-89 | the prompt is the concatenation, in theme order, of `[Post ID: id]\n` + content + `\n\n` for each known id and nothing else |
| PostSummarizer.ThemePromptAppend | reddit/post_summarizer.py:86-89 | the prompt for two id lists is the two prompts one after the other |
| PostSummarizer.SaveSummary | reddit/post_summarizer.py:131-147 | an absent ledger gives `[entry]`; an unreadable one raises; otherwise the old entries unchanged and the new one at the end |
| PostSummarizer.CountThemeAppend | reddit/post_summarizer.py:139 | entries per theme name are additive over concatenated ledgers |
| PostSummarizer.SavingTwiceAppendsTwice | reddit/post_summarizer.py:133-143 | saving two summaries of one theme appends both, so that theme has two more entries |
| PostSummarizer.SelectTheme | reddit/post_summarizer.py:78-84 | no themes raises; an index at or past the end raises; an in-range index selects that theme; a negative one counts from the end; one below `-len` raises `IndexError` |
| PostSummarizer.SummarizeThemePosts | reddit/post_summarizer.py:72-118 | a success copies the selected theme's name and ids verbatim, stores the model's answer to the theme prompt, and returns the saved ledger |
| PostSummarizer.SummarizeErrors | reddit/post_summarizer.py:77-92 | an empty theme list, an index past the end and a theme with no known ids each raise, before any model call or save |
| PostSummarizer.SummarizeModelFails | reddit/post_summarizer.py:95-118 | a failing model call fails the summarization and nothing is saved |
| PostSummarizer.SummarizeSucceeds | reddit/post_summarizer.py:107-114 | with a readable ledger and a model answer, the ledger grows by exactly the entry of theme name, ids and answer |
| CommentSummarizer.TopLine | reddit/comment_summarizer.py:54 | a top-level comment's line starts with `[` |
| CommentSummarizer.ReplyLine | reddit/comment_summarizer.py:54-61 | a reply's line is the line the same score and body give a top-level comment, behind a four-character marker (two spaces, `↳`, a space) |
| CommentSummarizer.ReplyLines | reddit/comment_summarizer.py:58-62 | one line per direct reply that is a comment, in order: the i-th is the reply line of the i-th comment left after dropping markers |
| CommentSummarizer.CommentBlock | reddit/comment_summarizer.py:54-62 | a top-level comment contributes its own line, then the line of each direct comment reply in order |
| CommentSummarizer.CommentLines | reddit/comment_summarizer.py:51-64 | the number of lines is the number of top-level comments plus their direct comment replies |
| CommentSummarizer.CommentLinesAreBlocks | reddit/comment_summarizer.py:51-64 | the lines are the blocks of the marker-free forest, concatenated in order |
| CommentSummarizer.GetCommentsForPost | reddit/comment_summarizer.py:35-67 | a failing fetch or `replace_more` gives `[]`; otherwise the lines of the first `max_comments` comments of the marker-free forest |
| CommentSummarizer.TopLinesAppend | reddit/comment_summarizer.py:51-62 | the `[`-lines of a concatenation are those of each part, in order |
| CommentSummarizer.ReplyLinesAreNotTop | reddit/comment_summarizer.py:61 | no reply line reads as a top-level line |
| CommentSummarizer.TopLinesRecovered | reddit/comment_summarizer.py:51-62 | the `[`-lines of the rendering are exactly the top-level comments' lines, in order |
| CommentSummarizer.TopLinesCons | reddit/comment_summarizer.py:52-62 | a top-level comment contributes exactly its own line to the `[`-lines |
| CommentSummarizer.TopLinesOfBlock | reddit/comment_summarizer.py:54-62 | the only `[`-line of a block is its top-level comment's line |
| CommentSummarizer.CommentsForPostShape | reddit/comment_summarizer.py:47-64 | for a loadable submission, one `[`-line per kept comment in order, and as many lines as kept comments plus their direct replies |
| CommentSummarizer.DropMarkersIdle | reddit/comment_summarizer.py:49 | a forest without markers is unchanged by `replace_more` |
| CommentSummarizer.GetThemeComments | reddit/comment_summarizer.py:80-85 | each post id appears at most once as a key |
| CommentSummarizer.ThemeCommentsContents | reddit/comment_summarizer.py:80-85 | an id is a key exactly when it is one of the theme's ids and yields at least one line, and it maps to those lines |
| CommentSummarizer.CommentedIdsYielded | reddit/comment_summarizer.py:81-84 | the ids that store comments are those whose fetch yields lines, in theme order |
| CommentSummarizer.ThemeCommentsOrder | reddit/comment_summarizer.py:80-85 | the dictionary lists the posts with comments in theme order, a repeated id keeping the place of its first occurrence |
| CommentSummarizer.CollectThemes | reddit/comment_summarizer.py:109-119 | each theme name appears at most once as a key |
| CommentSummarizer.SummarizeComments | reddit/comment_summarizer.py:95-121 | `None` exactly when authentication fails or the ledger cannot be read |
| CommentSummarizer.CollectThemesKeys | reddit/comment_summarizer.py:110-119 | a theme name is a key exactly when some ledger entry of that name yields comments |
| CommentSummarizer.CollectThemesValue | reddit/comment_summarizer.py:114-119 | a theme maps to the post summary and comments of the last entry of that name that yields comments |
| CommentSummarizer.CollectThemesOrder | reddit/comment_summarizer.py:109-119 | themes are listed in the order in which an entry of that name first yields comments; the first key is the theme of the first entry that yields any |
| CommentSummarizer.Terminated | reddit/comment_summarizer.py:133-134 | terminating lines adds one newline per line |
| CommentSummarizer.TerminatedIsJoin | reddit/comment_summarizer.py:133-134 | the terminated lines are the newline join plus a final newline |
| CommentSummarizer.TerminatedAppend | reddit/comment_summarizer.py:132-134 | terminating concatenated lines concatenates the terminated parts |
| CommentSummarizer.CommentPrompt | reddit/comment_summarizer.py:131-134 | the prompt starts with the post summary and is 12 characters (`\n\nComments:\n`) plus one newline per comment line longer than the summary and the lines |
| CommentSummarizer.CommentPromptShape | reddit/comment_summarizer.py:131-134 | the prompt is the post summary, `\n\nComments:\n`, then every comment line followed by a newline |
| CommentSummarizer.CommentMain | reddit/comment_summarizer.py:124-150 | no summaries means no model call. Otherwise the first theme's prompt is sent, a model failure raises, and the printed result is the first theme's name with the model's answer |
| CommentSummarizer.CommentMainFirstOnly | reddit/comment_summarizer.py:128-150 | themes after the first never change the outcome |
| CommentSummarizer.MainSendsFirstTheme | reddit/comment_summarizer.py:109-150 | with a readable ledger, the one prompt sent is that of the first entry whose posts yield comments, built from the last entry of that name that yields any; the result is that theme with the answer, or an error exactly when the model call fails |
| Markdown.Section | reddit/to_md.py:13-22 | an entry's section is 14 characters longer than its three fields together |
| Markdown.Sections | reddit/to_md.py:11-22 | the sections are produced exactly when every entry has `theme`, `post_summary` and `comment_summary` |
| Markdown.ToMarkdown | reddit/to_md.py:9-22 | the text always begins with `# Abstractions\n\n`, and is produced exactly when every entry is complete |
| Markdown.EmptyDigest | reddit/to_md.py:9-11 | no entries give exactly the title |
| Markdown.DigestIsSections | reddit/to_md.py:9-22 | the text is the title followed by each entry's `## theme\n\n post\n\n comments\n\n---\n\n`, in entry order |
| Markdown.SectionsAgree | reddit/to_md.py:11-22 | the incremental build equals the per-entry reference rendering |
| Markdown.SectionsOfCons | reddit/to_md.py:11-22 | the sections are the first entry's section followed by the rest |
| Markdown.SectionsAppend | reddit/to_md.py:11-22 | the sections of two entry lists joined are the two renderings one after the other, without a repeated title |
| Pipeline.TopPostsShaped | reddit/reddit_scraper.py:68-79 | every post the scraper builds has `selftext`, `score`, `num_comments` and `comments` and no `upvote_ratio` |
| Pipeline.ScrapeLoopShaped | reddit/reddit_scraper.py:165-168 | the scrape loop keeps every stored post in that shape |
| Pipeline.ScrapeShaped | reddit/reddit_scraper.py:162-170 | every post of a scrape has that shape |
| Pipeline.AllPostsShaped | reddit/formatter.py:115-116 | the flattened post list of a scrape has that shape |
| Pipeline.AllLinesOk | reddit/formatter.py:84-99 | the text rendering of a scrape never hits a missing key |
| Pipeline.ScrapeFormats | reddit/main.py:17-24 | both renderings of a scrape succeed, and the JSON export has one record per scraped post |
| Pipeline.ScrapedPostsFailMetrics | reddit/post_filter_agent.py:117-122 | no post the scraper builds passes the engagement filter |
| Pipeline.FilterScraped | reddit/post_filter_agent.py:141-151 | classifying any scraped subreddit's posts raises exactly on `batch_size < 1` and otherwise returns `[]` |
| Pipeline.ExportLoads | reddit/utils.py:14-20 | every JSON export loads as a corpus, each post carrying its record's id, content, comments, subreddit and score |

## Left out

- File and JSON I/O, `print` logging and `datetime.now()` are left out. Reading a file becomes a parameter holding its parsed contents or a failure marker; writing a file becomes a returned value.
- The PRAW and OpenAI calls are parameters: listings, comment forests that carry their refresh and `replace_more` failures, `fetch`, the classifier and the text model. `reddit/auth.py` is not part of this model, and authentication is a boolean.
- The asyncio concurrency of `filter_posts` and `process_batch` is modelled as a sequential map. Results are paired with posts by position, so the order of completion does not matter.
- `upvote_ratio` is an exact rational (`real`), not an IEEE float. The threshold is compared after scaling by 100.
- `format_reddit_data`: the printed header (timestamp, totals, API request count) is logging and is left out. The `api_requests` argument only feeds it.
- `save_to_file` and `save_json_to_file` only write files and catch their errors; they are left out.
- `reddit/db.py`, `reddit/topic_rec.py`, `reddit/search.py`, `reddit/create_user_profile.py`, `reddit/sys_prompt_generator.py`, the prompt constants, the Flask server and `reddit/main.py` are not part of this model. `Pipeline.ScrapeFormats` only follows the order in which `main.py` calls the stages.
- PostSummarizer.SummarizeThemePosts: theme records are assumed to carry `theme` and `post_ids`. A `KeyError` on a malformed theme record is not modelled.
- CommentSummarizer.SummarizeComments: ledger entries are assumed to carry `theme`, `post_ids` and `post_summary`. A `KeyError` on a malformed entry, which the code does not catch, is not modelled.
- CommentSummarizer.CommentMain: the answer is returned, not printed. `comment_summaries.json`, which `json_to_markdown` reads, is not written by any modelled code.
- PostFilter.ProcessBatch: the code sets `is_informative` on the caller's own dicts and returns the same list (reddit/post_filter_agent.py:66, 72, 100). The model returns new records, so the change to the caller's input, and the sharing between list entries that are the same dict, are not modelled.
- Records.Comment: `id`, `author`, `body`, `score` and `created_utc` are plain fields, because every scraped comment has them. The `KeyError` that `format_comment_tree` raises for a comment record lacking `body`, `score` or `author` (reddit/formatter.py:52-53) is not modelled.
- Records.Post: `id`, `title`, `url`, `author`, `created_utc` and `permalink` are plain fields, because every scraped record has them. The `KeyError` for a record that lacks one is not modelled.
- PostFilter.FilterPosts: whether the gather raises is a parameter. With the batch handler catching everything, only an exception outside the model can trigger it.
- Scraper.LoadSettings: a `scraping` object is a record with all five keys. A file whose `scraping` object lacks one is not modelled. In the code every read of a missing key raises `KeyError` inside a handler that returns `[]`: `posts_limit` and `time_filter` (reddit/reddit_scraper.py:65, 67) in `get_top_posts` (:83-85); `replies_limit` (:106) in `get_comment_replies` (:117-119); `comments_limit` (:137) and `comment_depth` (:98, read only for the call at :145) in `get_top_comments` (:150-152).
- Scraper.GetCommentReplies: its own contract only bounds the request count. The exact count, one request per refresh, is stated by `Scraper.RepliesRequestsExact` for trees with no "load more" marker in a visited reply slice. When a slice holds one, the siblings visited before it have spent requests that the returned `[]` no longer shows, and only the bounds are stated.
- Scraper.GetTopComments: likewise its own contract only bounds the request count; `Scraper.TopCommentsRequests` gives the exact count under the same marker-free condition.
- Scraper.GetTopPosts: likewise; `Scraper.TopPostsRequests` gives the exact count under the same marker-free condition.
- Scraper.RepliesBreadthBounded: stated for a non-negative `replies_limit` only. A negative limit slices from the end, and the bound then reads differently.
- Scraper.RepliesRequestsBounded: stated for a non-negative `replies_limit` only, for the same reason.
- Corpus.Stringify: `score` is an integer. Other JSON values in that field would render with Python's own `str`, which is not modelled.
