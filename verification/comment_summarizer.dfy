/** Comment collection per theme and the comment-summary prompt
    (reddit/comment_summarizer.py). Fetching a submission is a parameter: `fetch(id)` is
    `None` when `reddit.submission(id=...)` or reading it raises. */
module CommentSummarizer {
  import opened Base
  import opened Text
  import opened Seqs
  import opened Forum
  import opened PostSummarizer

  /** The default `max_comments` of `get_comments_for_post`. */
  const DefaultMaxComments: int := 10

  // ---------------------------------------------------------------------------
  // get_comments_for_post
  // ---------------------------------------------------------------------------

  /** The line for a top-level comment. */
  function TopLine(score: int, body: string): (r: string)
    ensures |r| > 0 && r[0] == '['
  {
    var parts := ["[Score: ", IntToString(score), "] ", body];
    assert Flatten(parts) == parts[0] + Flatten(parts[1..]);
    Flatten(parts)
  }

  /** The marker in front of a reply: two spaces, an arrow, a space. */
  const ReplyMarker: string := "  \U{21B3} "

  /** The line for a direct reply: the line it would have as a top-level comment,
      indented and marked with an arrow. */
  function ReplyLine(score: int, body: string): (r: string)
    ensures |r| == |TopLine(score, body)| + 4 && r[0] == ' '
    ensures r[4..] == TopLine(score, body)
  {
    var line := TopLine(score, body);
    var parts := [ReplyMarker, line];
    assert parts[1..] == [line] && [line][1..] == [];
    assert Flatten(parts) == ReplyMarker + Flatten([line]);
    assert Flatten([line]) == line + Flatten([]);
    Flatten(parts)
  }

  /** One line per reply that is a comment, in order; "load more" markers are skipped. */
  function ReplyLines(replies: seq<Node>): (r: seq<string>)
    ensures |r| == |DropMarkers(replies)|
    ensures forall i :: 0 <= i < |r| ==>
              r[i] == ReplyLine(DropMarkers(replies)[i].score, DropMarkers(replies)[i].body)
  {
    if |replies| == 0 then []
    else if replies[0].MoreComments? then ReplyLines(replies[1..])
    else [ReplyLine(replies[0].score, replies[0].body)] + ReplyLines(replies[1..])
  }

  /** Each top-level comment's line followed by its direct replies' lines. Deeper
      replies are not visited. */
  function CommentLines(top: seq<Node>): (r: seq<string>)
    ensures |r| == |DropMarkers(top)| + ReplyCount(top)
  {
    if |top| == 0 then []
    else if top[0].MoreComments? then CommentLines(top[1..])
    else CommentBlock(top[0]) + CommentLines(top[1..])
  }

  /** A top-level comment's line followed by its direct replies' lines. */
  function CommentBlock(c: Node): (r: seq<string>)
    requires c.SourceComment?
    ensures |r| == 1 + |DropMarkers(c.replies)|
    ensures r[0] == TopLine(c.score, c.body)
    ensures forall i :: 0 <= i < |DropMarkers(c.replies)| ==>
              r[i + 1] == ReplyLine(DropMarkers(c.replies)[i].score, DropMarkers(c.replies)[i].body)
  {
    var head := TopLine(c.score, c.body);
    var rest := ReplyLines(c.replies);
    assert forall i :: 0 <= i < |rest| ==> ([head] + rest)[i + 1] == rest[i];
    [head] + rest
  }

  /** The top-level comments a submission contributes: the first `max_comments` after
      `replace_more(limit=0)`, with Python slice semantics for the bound. */
  function KeptComments(sp: SourcePost, maxComments: int): seq<Node> {
    PyPrefix(DropMarkers(sp.comments), maxComments)
  }

  /** `get_comments_for_post(reddit, post_id, max_comments)`: any exception, from the
      fetch or from `replace_more`, yields an empty list. */
  function GetCommentsForPost(fetch: string -> Option<SourcePost>, postId: string, maxComments: int): (r: seq<string>)
    ensures fetch(postId).None? ==> r == []
    ensures fetch(postId).Some? && fetch(postId).value.replaceMoreFails ==> r == []
    ensures fetch(postId).Some? && !fetch(postId).value.replaceMoreFails ==>
              r == CommentLines(KeptComments(fetch(postId).value, maxComments))
  {
    match fetch(postId)
    case None => []
    case Some(sp) => if sp.replaceMoreFails then [] else CommentLines(KeptComments(sp, maxComments))
  }

  /** The lines that start with `[`: the top-level comment lines. */
  function TopLines(lines: seq<string>): seq<string> {
    if |lines| == 0 then []
    else if |lines[0]| > 0 && lines[0][0] == '[' then [lines[0]] + TopLines(lines[1..])
    else TopLines(lines[1..])
  }

  /** The top-level line of each comment in the forest, markers skipped. */
  function TopEntries(top: seq<Node>): (r: seq<string>)
    ensures |r| == |DropMarkers(top)|
  {
    if |top| == 0 then []
    else if top[0].MoreComments? then TopEntries(top[1..])
    else [TopLine(top[0].score, top[0].body)] + TopEntries(top[1..])
  }

  /** Number of direct replies that are comments, over all top-level comments. */
  function ReplyCount(top: seq<Node>): nat {
    if |top| == 0 then 0
    else if top[0].MoreComments? then ReplyCount(top[1..])
    else |DropMarkers(top[0].replies)| + ReplyCount(top[1..])
  }

  lemma {:induction false} TopLinesAppend(a: seq<string>, b: seq<string>)
    ensures TopLines(a + b) == TopLines(a) + TopLines(b)
    decreases |a|
  {
    if |a| == 0 {
      assert a + b == b;
    } else {
      assert (a + b)[1..] == a[1..] + b;
      TopLinesAppend(a[1..], b);
    }
  }

  lemma {:induction false} ReplyLinesAreNotTop(replies: seq<Node>)
    ensures TopLines(ReplyLines(replies)) == []
    decreases |replies|
  {
    if |replies| > 0 {
      ReplyLinesAreNotTop(replies[1..]);
      if replies[0].SourceComment? {
        TopLinesAppend([ReplyLine(replies[0].score, replies[0].body)], ReplyLines(replies[1..]));
      }
    }
  }

  /** Reading back the lines that start with `[` recovers exactly the top-level comments,
      in order: reply lines never masquerade as top-level ones. */
  lemma {:induction false} TopLinesRecovered(top: seq<Node>)
    ensures TopLines(CommentLines(top)) == TopEntries(top)
    decreases |top|
  {
    if |top| > 0 {
      TopLinesRecovered(top[1..]);
      if top[0].SourceComment? {
        TopLinesCons(top);
      }
    }
  }

  /** A top-level comment contributes its own line and nothing else to the `[`-lines. */
  lemma TopLinesCons(top: seq<Node>)
    requires |top| > 0 && top[0].SourceComment?
    ensures TopLines(CommentLines(top)) == [TopLine(top[0].score, top[0].body)] + TopLines(CommentLines(top[1..]))
  {
    TopLinesAppend(CommentBlock(top[0]), CommentLines(top[1..]));
    TopLinesOfBlock(top[0]);
  }

  lemma TopLinesOfBlock(c: Node)
    requires c.SourceComment?
    ensures TopLines(CommentBlock(c)) == [TopLine(c.score, c.body)]
  {
    var h := TopLine(c.score, c.body);
    var rest := ReplyLines(c.replies);
    assert CommentBlock(c) == [h] + rest;
    ReplyLinesAreNotTop(c.replies);
    assert ([h] + rest)[1..] == rest;
  }

  /** What a node contributes to the rendering: a comment's block, nothing for a marker. */
  function BlockOf(n: Node): seq<string> {
    if n.SourceComment? then CommentBlock(n) else []
  }

  /** The rendering is the blocks of the marker-free forest, concatenated in order. */
  lemma {:induction false} CommentLinesAreBlocks(top: seq<Node>)
    ensures CommentLines(top) == Flatten(Map(DropMarkers(top), BlockOf))
    decreases |top|
  {
    if |top| > 0 {
      CommentLinesAreBlocks(top[1..]);
      if top[0].SourceComment? {
        var rest := DropMarkers(top[1..]);
        assert DropMarkers(top) == [top[0]] + rest;
        assert ([top[0]] + rest)[1..] == rest;
        assert Map([top[0]] + rest, BlockOf) == [BlockOf(top[0])] + Map(rest, BlockOf);
      }
    }
  }

  /** For a submission that loads, the result holds exactly one `[`-line per kept top-level
      comment, in order, and one more line per direct reply of those. */
  lemma CommentsForPostShape(fetch: string -> Option<SourcePost>, postId: string, maxComments: int)
    requires fetch(postId).Some? && !fetch(postId).value.replaceMoreFails
    ensures var kept := KeptComments(fetch(postId).value, maxComments);
            && TopLines(GetCommentsForPost(fetch, postId, maxComments)) == TopEntries(kept)
            && |GetCommentsForPost(fetch, postId, maxComments)| == |kept| + ReplyCount(kept)
  {
    var kept := KeptComments(fetch(postId).value, maxComments);
    TopLinesRecovered(kept);
    DropMarkersIdle(kept);
  }

  /** A forest without markers is left as it is by `DropMarkers`. */
  lemma {:induction false} DropMarkersIdle(nodes: seq<Node>)
    requires forall i :: 0 <= i < |nodes| ==> nodes[i].SourceComment?
    ensures DropMarkers(nodes) == nodes
    decreases |nodes|
  {
    if |nodes| > 0 {
      DropMarkersIdle(nodes[1..]);
    }
  }

  // ---------------------------------------------------------------------------
  // get_theme_comments
  // ---------------------------------------------------------------------------

  /** What `get_theme_comments` keeps for one post id. */
  function PostComments(fetch: string -> Option<SourcePost>, postId: string): seq<string> {
    GetCommentsForPost(fetch, postId, DefaultMaxComments)
  }

  /** A post's comment lines, when it has any: what `get_theme_comments` stores for it. */
  function PostYield(fetch: string -> Option<SourcePost>, postId: string): Option<seq<string>> {
    var cs := PostComments(fetch, postId);
    if |cs| > 0 then Some(cs) else None
  }

  function PostYielder(fetch: string -> Option<SourcePost>): string -> Option<seq<string>> {
    id => PostYield(fetch, id)
  }

  /** Post ids are their own dictionary keys. */
  function PostKey(postId: string): string {
    postId
  }

  /** `get_theme_comments(reddit, theme)`: a dictionary from post id to its comment lines,
      holding only the posts that yielded at least one line. */
  function GetThemeComments(fetch: string -> Option<SourcePost>, postIds: seq<string>): (r: Assoc<string, seq<string>>)
    ensures DistinctKeys(r)
  {
    PutAll(postIds, PostKey, PostYielder(fetch))
  }

  /** A post id is a key exactly when it is one of the theme's ids and yields comments,
      and its value is then those comments. */
  lemma ThemeCommentsContents(fetch: string -> Option<SourcePost>, postIds: seq<string>, id: string)
    ensures HasKey(GetThemeComments(fetch, postIds), id) <==> id in postIds && |PostComments(fetch, id)| > 0
    ensures HasKey(GetThemeComments(fetch, postIds), id) ==>
              Get(GetThemeComments(fetch, postIds), id) == Some(PostComments(fetch, id))
  {
    PutAllKeys(postIds, PostKey, PostYielder(fetch), id);
    if id in postIds && |PostComments(fetch, id)| > 0 {
      var i :| 0 <= i < |postIds| && postIds[i] == id;
      assert PostKey(postIds[i]) == id && PostYielder(fetch)(postIds[i]).Some?;
    }
    if HasKey(GetThemeComments(fetch, postIds), id) {
      PutAllValueFrom(postIds, PostKey, PostYielder(fetch), id);
    }
  }

  /** The ids of `postIds` that yield comment lines, in order, repeats included. */
  function CommentedIds(fetch: string -> Option<SourcePost>, postIds: seq<string>): seq<string> {
    if |postIds| == 0 then []
    else if |PostComments(fetch, postIds[0])| > 0 then [postIds[0]] + CommentedIds(fetch, postIds[1..])
    else CommentedIds(fetch, postIds[1..])
  }

  lemma {:induction false} CommentedIdsYielded(fetch: string -> Option<SourcePost>, postIds: seq<string>)
    ensures YieldedKeys(postIds, PostKey, PostYielder(fetch)) == CommentedIds(fetch, postIds)
    decreases |postIds|
  {
    if |postIds| > 0 {
      CommentedIdsYielded(fetch, postIds[1..]);
    }
  }

  /** The dictionary lists the posts that yield comments in theme order; an id listed
      twice keeps the place of its first occurrence. */
  lemma ThemeCommentsOrder(fetch: string -> Option<SourcePost>, postIds: seq<string>)
    ensures Keys(GetThemeComments(fetch, postIds)) == FirstOccurrences(CommentedIds(fetch, postIds))
  {
    PutAllKeyOrder(postIds, PostKey, PostYielder(fetch));
    CommentedIdsYielded(fetch, postIds);
  }

  // ---------------------------------------------------------------------------
  // summarize_comments
  // ---------------------------------------------------------------------------

  /** The value `summarize_comments` stores per theme. */
  datatype ThemeComments = ThemeComments(postSummary: string, comments: Assoc<string, seq<string>>)

  /** A ledger entry's contribution: its post summary and its posts' comments, when at
      least one of its posts yields comments. */
  function ThemeYield(fetch: string -> Option<SourcePost>, e: SummaryEntry): Option<ThemeComments> {
    var tc := GetThemeComments(fetch, e.postIds);
    if |tc| > 0 then Some(ThemeComments(e.postSummary, tc)) else None
  }

  function ThemeYielder(fetch: string -> Option<SourcePost>): SummaryEntry -> Option<ThemeComments> {
    e => ThemeYield(fetch, e)
  }

  function ThemeName(e: SummaryEntry): string {
    e.theme
  }

  /** The loop over ledger entries, keyed by theme name. */
  function CollectThemes(fetch: string -> Option<SourcePost>, entries: seq<SummaryEntry>): (r: Assoc<string, ThemeComments>)
    ensures DistinctKeys(r)
  {
    PutAll(entries, ThemeName, ThemeYielder(fetch))
  }

  /** `summarize_comments()`: `None` when authentication fails or the ledger cannot be
      read, otherwise a dictionary from theme name to its post summary and comments. */
  function SummarizeComments(authenticated: bool, ledger: LedgerFile, fetch: string -> Option<SourcePost>)
    : (r: Option<Assoc<string, ThemeComments>>)
    ensures r.Some? <==> authenticated && ledger.Ledger?
    ensures r.Some? ==> DistinctKeys(r.value)
  {
    if !authenticated then None
    else match ledger
      case Ledger(entries) => Some(CollectThemes(fetch, entries))
      case _ => None
  }

  /** A theme name is present exactly when some entry of that name yields comments. */
  lemma CollectThemesKeys(fetch: string -> Option<SourcePost>, entries: seq<SummaryEntry>, name: string)
    ensures HasKey(CollectThemes(fetch, entries), name) <==>
              exists i :: 0 <= i < |entries| && entries[i].theme == name && |GetThemeComments(fetch, entries[i].postIds)| > 0
  {
    PutAllKeys(entries, ThemeName, ThemeYielder(fetch), name);
  }

  /** Ledger entry `i` is the last one named `name` whose posts yield comments. */
  predicate LastContributor(fetch: string -> Option<SourcePost>, entries: seq<SummaryEntry>, name: string, i: int) {
    && 0 <= i < |entries|
    && entries[i].theme == name
    && |GetThemeComments(fetch, entries[i].postIds)| > 0
    && forall j :: i < j < |entries| && entries[j].theme == name ==> |GetThemeComments(fetch, entries[j].postIds)| == 0
  }

  /** The value under a theme name comes from the last entry of that name that yields
      comments: a later entry with no comments does not erase an earlier one. */
  lemma CollectThemesValue(fetch: string -> Option<SourcePost>, entries: seq<SummaryEntry>, name: string, i: int)
    requires LastContributor(fetch, entries, name, i)
    ensures Get(CollectThemes(fetch, entries), name)
              == Some(ThemeComments(entries[i].postSummary, GetThemeComments(fetch, entries[i].postIds)))
  {
    assert LastYield(entries, ThemeName, ThemeYielder(fetch), name, i);
    PutAllValue(entries, ThemeName, ThemeYielder(fetch), name, i);
  }

  /** Themes are listed in the order in which a ledger entry of that name first yields
      comments; in particular the first theme is that of the first such entry. */
  lemma CollectThemesOrder(fetch: string -> Option<SourcePost>, entries: seq<SummaryEntry>, i: int)
    requires 0 <= i < |entries| && |GetThemeComments(fetch, entries[i].postIds)| > 0
    requires forall j :: 0 <= j < i ==> |GetThemeComments(fetch, entries[j].postIds)| == 0
    ensures Keys(CollectThemes(fetch, entries)) == FirstOccurrences(YieldedKeys(entries, ThemeName, ThemeYielder(fetch)))
    ensures |CollectThemes(fetch, entries)| > 0 && CollectThemes(fetch, entries)[0].0 == entries[i].theme
  {
    PutAllKeyOrder(entries, ThemeName, ThemeYielder(fetch));
    PutAllFirstKey(entries, ThemeName, ThemeYielder(fetch), i);
  }

  // ---------------------------------------------------------------------------
  // The `__main__` block
  // ---------------------------------------------------------------------------

  /** Each line followed by a newline, all concatenated. */
  function Terminated(lines: seq<string>): (r: string)
    ensures |r| == TotalLength(lines) + |lines|
  {
    if |lines| == 0 then "" else lines[0] + "\n" + Terminated(lines[1..])
  }

  /** All comment lines of a theme, post after post in dictionary order. */
  function AllLines(comments: Assoc<string, seq<string>>): seq<string> {
    if |comments| == 0 then [] else comments[0].1 + AllLines(comments[1..])
  }

  /** The user message for one theme: its post summary, a "Comments:" heading, then every
      comment line of every post, each ending in a newline. */
  function CommentPrompt(tc: ThemeComments): (r: string)
    ensures |r| == |tc.postSummary| + 12 + TotalLength(AllLines(tc.comments)) + |AllLines(tc.comments)|
    ensures r[..|tc.postSummary|] == tc.postSummary
  {
    tc.postSummary + "\n\nComments:\n" + Terminated(AllLines(tc.comments))
  }

  /** A terminated list is the newline-joined list plus one final newline. */
  lemma {:induction false} TerminatedIsJoin(lines: seq<string>)
    requires |lines| > 0
    ensures Terminated(lines) == Join("\n", lines) + "\n"
    decreases |lines|
  {
    if |lines| > 1 {
      TerminatedIsJoin(lines[1..]);
    }
  }

  lemma {:induction false} TerminatedAppend(a: seq<string>, b: seq<string>)
    ensures Terminated(a + b) == Terminated(a) + Terminated(b)
    decreases |a|
  {
    if |a| == 0 {
      assert a + b == b;
    } else {
      assert (a + b)[1..] == a[1..] + b;
      TerminatedAppend(a[1..], b);
    }
  }

  /** The prompt's comment section is the newline join of all lines, with a final newline;
      with no comments it ends right after the heading. */
  lemma CommentPromptShape(tc: ThemeComments)
    ensures |AllLines(tc.comments)| == 0 ==> CommentPrompt(tc) == tc.postSummary + "\n\nComments:\n"
    ensures |AllLines(tc.comments)| > 0 ==>
              CommentPrompt(tc) == tc.postSummary + "\n\nComments:\n" + Join("\n", AllLines(tc.comments)) + "\n"
  {
    if |AllLines(tc.comments)| > 0 {
      TerminatedIsJoin(AllLines(tc.comments));
    }
  }

  /** The `__main__` run: when there are summaries, only the FIRST theme is sent to the
      model (the loop ends with `break`); a failed model call raises. The result is the
      theme name and the comment summary printed for it. */
  function CommentMain(summaries: Option<Assoc<string, ThemeComments>>, model: string -> Option<string>)
    : (r: Result<Option<(string, string)>>)
    ensures summaries.None? || |summaries.value| == 0 ==> r == Ok(None)
    ensures r.Ok? && r.value.Some? ==>
              && summaries.Some? && |summaries.value| > 0
              && r.value.value.0 == summaries.value[0].0
              && model(CommentPrompt(summaries.value[0].1)) == Some(r.value.value.1)
    ensures summaries.Some? && |summaries.value| > 0 ==>
              (r == Err(ModelCallFailed) <==> model(CommentPrompt(summaries.value[0].1)).None?)
    ensures summaries.Some? && |summaries.value| > 0 ==>
              && (r.Ok? <==> model(CommentPrompt(summaries.value[0].1)).Some?)
              && (r.Ok? ==> r.value.Some?)
  {
    match summaries
    case None => Ok(None)
    case Some(d) =>
      if |d| == 0 then Ok(None)
      else match model(CommentPrompt(d[0].1))
        case None => Err(ModelCallFailed)
        case Some(s) => Ok(Some((d[0].0, s)))
  }

  /** With a readable ledger, the one theme sent to the model is that of the first entry
      whose posts yield comments, with the summary and comments of the last entry of that
      name that yields any. */
  lemma MainSendsFirstTheme(fetch: string -> Option<SourcePost>, entries: seq<SummaryEntry>,
                            model: string -> Option<string>, i: int, j: int)
    requires 0 <= i < |entries| && |GetThemeComments(fetch, entries[i].postIds)| > 0
    requires forall k :: 0 <= k < i ==> |GetThemeComments(fetch, entries[k].postIds)| == 0
    requires LastContributor(fetch, entries, entries[i].theme, j)
    ensures var prompt := CommentPrompt(ThemeComments(entries[j].postSummary, GetThemeComments(fetch, entries[j].postIds)));
            var r := CommentMain(SummarizeComments(true, Ledger(entries), fetch), model);
            && (model(prompt).None? ==> r == Err(ModelCallFailed))
            && (model(prompt).Some? ==> r == Ok(Some((entries[i].theme, model(prompt).value))))
  {
    var d := CollectThemes(fetch, entries);
    CollectThemesOrder(fetch, entries, i);
    CollectThemesValue(fetch, entries, entries[i].theme, j);
    assert Get(d, entries[i].theme) == Some(d[0].1);
  }

  /** Themes after the first never influence the run. */
  lemma CommentMainFirstOnly(first: (string, ThemeComments), a: Assoc<string, ThemeComments>,
                             b: Assoc<string, ThemeComments>, model: string -> Option<string>)
    ensures CommentMain(Some([first] + a), model) == CommentMain(Some([first] + b), model)
  {
  }
}
