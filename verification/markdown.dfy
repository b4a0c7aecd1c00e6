/** The final Markdown digest (reddit/to_md.py): one section per comment-summary entry,
    after a fixed title. Reading the JSON file and writing `abstract.md` are left out. */
module Markdown {
  import opened Base
  import opened Text
  import opened Seqs

  /** One entry of `comment_summaries.json`, each key possibly absent. */
  datatype MdRecord = MdRecord(theme: Option<string>, postSummary: Option<string>, commentSummary: Option<string>)

  const Title: string := "# Abstractions\n\n"
  const Rule: string := "---\n\n"

  predicate Complete(e: MdRecord) {
    e.theme.Some? && e.postSummary.Some? && e.commentSummary.Some?
  }

  /** The section an entry contributes: heading, post summary, comment summary, rule. */
  function Section(theme: string, postSummary: string, commentSummary: string): (r: string)
    ensures |r| == |theme| + |postSummary| + |commentSummary| + 14
  {
    "## " + theme + "\n\n" + postSummary + "\n\n" + commentSummary + "\n\n" + Rule
  }

  /** The sections of all entries, in file order; the first entry missing `theme`,
      `post_summary` or `comment_summary` (looked up in that order) raises. */
  function Sections(data: seq<MdRecord>): (r: Result<string>)
    ensures r.Ok? <==> forall i :: 0 <= i < |data| ==> Complete(data[i])
  {
    if |data| == 0 then Ok("")
    else
      var e := data[0];
      var theme :- if e.theme.Some? then Ok(e.theme.value) else Err(MissingKey("theme"));
      var ps :- if e.postSummary.Some? then Ok(e.postSummary.value) else Err(MissingKey("post_summary"));
      var cs :- if e.commentSummary.Some? then Ok(e.commentSummary.value) else Err(MissingKey("comment_summary"));
      var rest :- Sections(data[1..]);
      assert forall i :: 0 < i < |data| ==> data[1..][i - 1] == data[i];
      Ok(Section(theme, ps, cs) + rest)
  }

  /** `json_to_markdown()`: the content written to `abstract.md`. */
  function ToMarkdown(data: seq<MdRecord>): (r: Result<string>)
    ensures r.Ok? <==> forall i :: 0 <= i < |data| ==> Complete(data[i])
    ensures r.Ok? ==> |r.value| >= |Title| && r.value[..|Title|] == Title
  {
    var body :- Sections(data);
    Ok(Title + body)
  }

  /** The section of one entry, as a reference definition (absent fields read as empty). */
  function EntrySection(e: MdRecord): string {
    Section(e.theme.GetOr(""), e.postSummary.GetOr(""), e.commentSummary.GetOr(""))
  }

  /** The text of an entry list's sections, one after the other. */
  function SectionsOf(data: seq<MdRecord>): string {
    Flatten(Map(data, EntrySection))
  }

  /** Total length of the text fields of complete entries. */
  function FieldsLength(data: seq<MdRecord>): nat
    requires forall i :: 0 <= i < |data| ==> Complete(data[i])
  {
    if |data| == 0 then 0
    else
      var e := data[0];
      assert Complete(e);
      |e.theme.value| + |e.postSummary.value| + |e.commentSummary.value| + FieldsLength(data[1..])
  }

  /** Without entries the digest is exactly the title. */
  lemma EmptyDigest()
    ensures ToMarkdown([]) == Ok(Title)
  {
    assert Title + "" == Title;
  }

  /** The digest of complete entries is the title followed by each entry's section. */
  lemma {:induction false} DigestIsSections(data: seq<MdRecord>)
    requires forall i :: 0 <= i < |data| ==> Complete(data[i])
    ensures ToMarkdown(data) == Ok(Title + SectionsOf(data))
    ensures |SectionsOf(data)| == FieldsLength(data) + 14 * |data|
  {
    SectionsAgree(data);
  }

  lemma {:induction false} SectionsAgree(data: seq<MdRecord>)
    requires forall i :: 0 <= i < |data| ==> Complete(data[i])
    ensures Sections(data) == Ok(SectionsOf(data))
    ensures |SectionsOf(data)| == FieldsLength(data) + 14 * |data|
    decreases |data|
  {
    if |data| > 0 {
      SectionsAgree(data[1..]);
      SectionsOfCons(data);
    }
  }

  lemma SectionsOfCons(data: seq<MdRecord>)
    requires |data| > 0
    ensures SectionsOf(data) == EntrySection(data[0]) + SectionsOf(data[1..])
  {
    var m := Map(data, EntrySection);
    assert m[0] == EntrySection(data[0]) && m[1..] == Map(data[1..], EntrySection);
  }

  /** Sections of two entry lists, one after the other, are the sections of the joined list. */
  lemma SectionsAppend(a: seq<MdRecord>, b: seq<MdRecord>)
    ensures SectionsOf(a + b) == SectionsOf(a) + SectionsOf(b)
  {
    MapAppend(a, b, EntrySection);
    FlattenAppend(Map(a, EntrySection), Map(b, EntrySection));
  }
}
