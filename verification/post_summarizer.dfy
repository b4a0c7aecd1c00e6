/** Per-theme post summaries and the summary ledger (reddit/post_summarizer.py).
    The generative-model call is a parameter that may fail. */
module PostSummarizer {
  import opened Base
  import opened Seqs
  import opened Corpus

  /** One entry of `theme_summaries.json`. */
  datatype SummaryEntry = SummaryEntry(theme: string, postIds: seq<string>, postSummary: string)

  /** The ledger file before a save: absent, present but unparsable, or a list of entries. */
  datatype LedgerFile = NoLedger | UnreadableLedger | Ledger(entries: seq<SummaryEntry>)

  // ---------------------------------------------------------------------------
  // Corpus lookup and prompt assembly
  // ---------------------------------------------------------------------------

  /** `posts` has no entry after index `i` with the same id: it is the one a dictionary
      comprehension over `posts` keeps. */
  predicate LastWithId(posts: seq<CorpusPost>, i: int) {
    && 0 <= i < |posts|
    && forall j :: i < j < |posts| ==> posts[j].postId != posts[i].postId
  }

  /** `{post.post_id: post for post in posts}`: a later post with the same id overwrites
      an earlier one. */
  function IndexById(posts: seq<CorpusPost>): (r: map<string, CorpusPost>)
    ensures forall id :: id in r <==> exists i :: 0 <= i < |posts| && posts[i].postId == id
  {
    if |posts| == 0 then map[]
    else
      var rest := IndexById(posts[1..]);
      assert forall i :: 0 < i < |posts| ==> posts[1..][i - 1] == posts[i];
      if posts[0].postId in rest then rest else rest[posts[0].postId := posts[0]]
  }

  /** The entry for an id is the last post carrying it. */
  lemma {:induction false} IndexByIdLastWins(posts: seq<CorpusPost>, i: int)
    requires LastWithId(posts, i)
    ensures IndexById(posts)[posts[i].postId] == posts[i]
    decreases |posts|
  {
    var id := posts[i].postId;
    var rest := IndexById(posts[1..]);
    if i == 0 {
      assert id !in rest by {
        forall j | 0 <= j < |posts[1..]|
          ensures posts[1..][j].postId != id
        {
          assert posts[1..][j] == posts[j + 1];
        }
      }
    } else {
      assert posts[1..][i - 1] == posts[i];
      assert LastWithId(posts[1..], i - 1) by {
        forall j | i - 1 < j < |posts[1..]|
          ensures posts[1..][j].postId != posts[1..][i - 1].postId
        {
          assert posts[1..][j] == posts[j + 1];
        }
      }
      IndexByIdLastWins(posts[1..], i - 1);
      assert id in rest;
    }
  }

  /** What a known post contributes to the prompt. */
  function PostBlock(p: CorpusPost): (r: string)
    ensures |r| > 0
  {
    "[Post ID: " + p.postId + "]\n" + p.content + "\n\n"
  }

  /** The prompt for a theme: each of its ids found in the corpus, in theme order, as a
      block; ids the corpus lacks are skipped. */
  function ThemePrompt(ids: seq<string>, index: map<string, CorpusPost>): (r: string)
    ensures r == "" <==> forall i :: 0 <= i < |ids| ==> ids[i] !in index
  {
    if |ids| == 0 then ""
    else
      var rest := ThemePrompt(ids[1..], index);
      assert forall i :: 0 < i < |ids| ==> ids[1..][i - 1] == ids[i];
      (if ids[0] in index then PostBlock(index[ids[0]]) else "") + rest
  }

  /** The ids of a theme that the corpus knows, in theme order. */
  function KnownIds(ids: seq<string>, index: map<string, CorpusPost>): (r: seq<string>)
    ensures forall id :: id in r <==> id in ids && id in index
  {
    if |ids| == 0 then []
    else if ids[0] in index then [ids[0]] + KnownIds(ids[1..], index)
    else KnownIds(ids[1..], index)
  }

  function Blocks(ids: seq<string>, index: map<string, CorpusPost>): seq<string>
    requires forall id :: id in ids ==> id in index
  {
    if |ids| == 0 then [] else [PostBlock(index[ids[0]])] + Blocks(ids[1..], index)
  }

  /** The prompt is the concatenation of the known posts' blocks, nothing else. */
  lemma {:induction false} ThemePromptIsKnownBlocks(ids: seq<string>, index: map<string, CorpusPost>)
    ensures ThemePrompt(ids, index) == Flatten(Blocks(KnownIds(ids, index), index))
    decreases |ids|
  {
    if |ids| > 0 {
      ThemePromptIsKnownBlocks(ids[1..], index);
      var known := KnownIds(ids, index);
      if ids[0] in index {
        assert known[1..] == KnownIds(ids[1..], index);
        assert Blocks(known, index) == [PostBlock(index[ids[0]])] + Blocks(known[1..], index);
      }
    }
  }

  /** Assembling the prompt for two id lists gives the two prompts one after the other. */
  lemma {:induction false} ThemePromptAppend(a: seq<string>, b: seq<string>, index: map<string, CorpusPost>)
    ensures ThemePrompt(a + b, index) == ThemePrompt(a, index) + ThemePrompt(b, index)
    decreases |a|
  {
    if |a| == 0 {
      assert a + b == b;
    } else {
      assert (a + b)[1..] == a[1..] + b;
      ThemePromptAppend(a[1..], b, index);
    }
  }

  // ---------------------------------------------------------------------------
  // The ledger
  // ---------------------------------------------------------------------------

  /** `save_summary_to_json(entry)`: load the ledger (an absent file is an empty ledger),
      append the entry, write it all back. There is no matching by theme name. */
  function SaveSummary(ledger: LedgerFile, entry: SummaryEntry): (r: Result<seq<SummaryEntry>>)
    ensures ledger.UnreadableLedger? <==> r == Err(LedgerUnreadable)
    ensures ledger.NoLedger? ==> r == Ok([entry])
    ensures ledger.Ledger? ==> r.Ok? && |r.value| == |ledger.entries| + 1
    ensures ledger.Ledger? ==> r.value[..|ledger.entries|] == ledger.entries && r.value[|ledger.entries|] == entry
  {
    match ledger
    case NoLedger => Ok([entry])
    case UnreadableLedger => Err(LedgerUnreadable)
    case Ledger(entries) => Ok(entries + [entry])
  }

  /** How many ledger entries carry theme name `name`. */
  function CountTheme(entries: seq<SummaryEntry>, name: string): nat {
    if |entries| == 0 then 0
    else (if entries[0].theme == name then 1 else 0) + CountTheme(entries[1..], name)
  }

  lemma {:induction false} CountThemeAppend(a: seq<SummaryEntry>, b: seq<SummaryEntry>, name: string)
    ensures CountTheme(a + b, name) == CountTheme(a, name) + CountTheme(b, name)
    decreases |a|
  {
    if |a| == 0 {
      assert a + b == b;
    } else {
      assert (a + b)[1..] == a[1..] + b;
      CountThemeAppend(a[1..], b, name);
    }
  }

  /** Saving two summaries of the same theme leaves two more entries for it: the ledger
      appends and never replaces. */
  lemma SavingTwiceAppendsTwice(entries: seq<SummaryEntry>, e1: SummaryEntry, e2: SummaryEntry)
    requires e1.theme == e2.theme
    ensures var once := SaveSummary(Ledger(entries), e1).value;
            var twice := SaveSummary(Ledger(once), e2).value;
            twice == entries + [e1, e2] && CountTheme(twice, e1.theme) == CountTheme(entries, e1.theme) + 2
  {
    var once := entries + [e1];
    var twice := once + [e2];
    assert twice == entries + [e1, e2];
    CountThemeAppend(entries, [e1, e2], e1.theme);
    assert [e1, e2][1..] == [e2];
    assert [e2][1..] == [];
    assert CountTheme([e2], e1.theme) == 1;
    assert CountTheme([e1, e2], e1.theme) == 2;
  }

  // ---------------------------------------------------------------------------
  // summarize_theme_posts
  // ---------------------------------------------------------------------------

  /** The theme `themes[theme_index]` selects once the emptiness and upper-bound checks
      pass; a negative index counts from the end, as in Python. */
  function SelectTheme(themes: seq<Theme>, themeIndex: int): (r: Result<Theme>)
    ensures |themes| == 0 ==> r == Err(NoThemes)
    ensures |themes| > 0 && themeIndex >= |themes| ==> r == Err(ThemeIndexOutOfRange(themeIndex))
    ensures 0 <= themeIndex < |themes| ==> r == Ok(themes[themeIndex])
    ensures -|themes| <= themeIndex < 0 ==> r == Ok(themes[|themes| + themeIndex])
    ensures |themes| > 0 && themeIndex < -|themes| ==> r == Err(IndexOutOfRange(themeIndex))
  {
    if |themes| == 0 then Err(NoThemes)
    else if themeIndex >= |themes| then Err(ThemeIndexOutOfRange(themeIndex))
    else match PyIndex(themes, themeIndex)
      case None => Err(IndexOutOfRange(themeIndex))
      case Some(t) => Ok(t)
  }

  /** What one summarization returns and the ledger it leaves. */
  datatype Summarized = Summarized(entry: SummaryEntry, ledger: seq<SummaryEntry>)

  /** `summarize_theme_posts(theme_index)`: load the corpus and the themes, check the index,
      assemble the prompt, make one model call, save. Every error is raised before the
      save, so a failed call leaves the ledger as it was. */
  function SummarizeThemePosts(records: seq<CorpusRecord>, themesData: Option<seq<Theme>>, themeIndex: int,
                               model: string -> Option<string>, ledger: LedgerFile): (r: Result<Summarized>)
    ensures r.Ok? ==> themesData.Some? && LoadPosts(records).Ok?
    ensures r.Ok? && themesData.Some? && LoadPosts(records).Ok? ==> exists t :: (
              && SelectTheme(themesData.value, themeIndex) == Ok(t)
              && r.value.entry.theme == t.theme
              && r.value.entry.postIds == t.postIds
              && Some(r.value.entry.postSummary) == model(ThemePrompt(t.postIds, IndexById(LoadPosts(records).value)))
              && SaveSummary(ledger, r.value.entry) == Ok(r.value.ledger))
  {
    var posts :- LoadPosts(records);
    var index := IndexById(posts);
    var themes :- LoadThemes(themesData);
    var theme :- SelectTheme(themes, themeIndex);
    var prompt := ThemePrompt(theme.postIds, index);
    if prompt == "" then Err(NoPostsForTheme(theme.theme))
    else match model(prompt)
      case None => Err(ModelCallFailed)
      case Some(summary) =>
        var entry := SummaryEntry(theme.theme, theme.postIds, summary);
        var saved :- SaveSummary(ledger, entry);
        Ok(Summarized(entry, saved))
  }

  /** The error cases of a summarization, each before anything is saved: an empty theme
      list, an index past the end, and a theme none of whose ids is in the corpus. */
  lemma SummarizeErrors(records: seq<CorpusRecord>, themes: seq<Theme>, themeIndex: int,
                        model: string -> Option<string>, ledger: LedgerFile)
    requires forall i :: 0 <= i < |records| ==> Complete(records[i])
    ensures |themes| == 0 ==> SummarizeThemePosts(records, Some(themes), themeIndex, model, ledger) == Err(NoThemes)
    ensures |themes| > 0 && themeIndex >= |themes| ==>
              SummarizeThemePosts(records, Some(themes), themeIndex, model, ledger) == Err(ThemeIndexOutOfRange(themeIndex))
    ensures 0 <= themeIndex < |themes| &&
            (forall i :: 0 <= i < |themes[themeIndex].postIds| ==>
               themes[themeIndex].postIds[i] !in IndexById(LoadPosts(records).value)) ==>
              SummarizeThemePosts(records, Some(themes), themeIndex, model, ledger)
                == Err(NoPostsForTheme(themes[themeIndex].theme))
  {
  }

  /** A theme with at least one post in a complete corpus, selected by an index in range. */
  predicate Summarizable(records: seq<CorpusRecord>, themes: seq<Theme>, themeIndex: int) {
    && (forall i :: 0 <= i < |records| ==> Complete(records[i]))
    && 0 <= themeIndex < |themes|
    && exists i :: 0 <= i < |themes[themeIndex].postIds| &&
         themes[themeIndex].postIds[i] in IndexById(LoadPosts(records).value)
  }

  /** The prompt sent to the model for a summarizable theme. */
  function PromptFor(records: seq<CorpusRecord>, themes: seq<Theme>, themeIndex: int): string
    requires Summarizable(records, themes, themeIndex)
  {
    ThemePrompt(themes[themeIndex].postIds, IndexById(LoadPosts(records).value))
  }

  /** If the model call fails the whole call fails, and nothing is saved. */
  lemma SummarizeModelFails(records: seq<CorpusRecord>, themes: seq<Theme>, themeIndex: int,
                            model: string -> Option<string>, ledger: LedgerFile)
    requires Summarizable(records, themes, themeIndex)
    requires model(PromptFor(records, themes, themeIndex)).None?
    ensures SummarizeThemePosts(records, Some(themes), themeIndex, model, ledger) == Err(ModelCallFailed)
  {
  }

  /** With a readable ledger, when the model answers, the ledger grows by one entry carrying
      the theme's name and ids verbatim, unknown ids included, and the model's answer. */
  lemma SummarizeSucceeds(records: seq<CorpusRecord>, themes: seq<Theme>, themeIndex: int,
                          model: string -> Option<string>, entries: seq<SummaryEntry>, summary: string)
    requires Summarizable(records, themes, themeIndex)
    requires model(PromptFor(records, themes, themeIndex)) == Some(summary)
    ensures SummarizeThemePosts(records, Some(themes), themeIndex, model, Ledger(entries))
              == Ok(Summarized(SummaryEntry(themes[themeIndex].theme, themes[themeIndex].postIds, summary),
                               entries + [SummaryEntry(themes[themeIndex].theme, themes[themeIndex].postIds, summary)]))
  {
  }
}
