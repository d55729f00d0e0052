/**
 * The Markdown document `save_markdown` writes to `summaries/YYYY-MM-DD.md`:
 * header, trend, up to five topics with five-cell star ratings, one section per
 * non-empty category in the fixed order, and the 1-based list of every article.
 */
module Markdown {
  import opened Options
  import opened Text
  import opened Numerals
  import opened Schema
  import opened Calendar
  import opened Notification

  /** Width of the padded rating in the topic section. */
  const RatingWidth: int := 5

  /** `"★" * n + "☆" * (5 - n)`: Python repeats by a non-positive count give "". */
  function PaddedStars(n: int): (r: string)
    ensures |r| == (if n <= 0 then 0 else n) + (if RatingWidth - n <= 0 then 0 else RatingWidth - n)
    ensures forall i :: 0 <= i < |r| ==> (r[i] == '★' <==> i < n)
    ensures forall i :: 0 <= i < |r| ==> r[i] == '★' || r[i] == '☆'
  {
    Repeat('★', n) + Repeat('☆', RatingWidth - n)
  }

  /** An importance in 0..5 gives exactly five cells, the first `n` filled. */
  lemma PaddedStarsInRange(n: int)
    requires 0 <= n <= RatingWidth
    ensures |PaddedStars(n)| == RatingWidth
    ensures PaddedStars(n)[..n] == Repeat('★', n)
  {
  }

  /** An importance above 5 overflows the rating instead of being clamped. */
  lemma PaddedStarsOverflow(n: int)
    requires n > RatingWidth
    ensures |PaddedStars(n)| == n
    ensures forall i :: 0 <= i < n ==> PaddedStars(n)[i] == '★'
  {
  }

  /** `daily_trend.get("keywords", [])`. */
  function TrendKeywords(doc: Doc): seq<string> {
    match doc.trend
    case None => []
    case Some(t) => t.keywords.GetOr([])
  }

  /** `categories.get(category, [])` on `summary_data.get("categories", {})`. */
  function ItemsOf(doc: Doc, category: string): seq<Entry> {
    match doc.categories
    case None => []
    case Some(m) => if category in m then m[category] else []
  }

  /** The document's title line. */
  function TitleLine(date: Date): string {
    "# 日経新聞サマリー - " + JapaneseDate(date)
  }

  /** The generation time line. */
  function StampLine(date: Date, time: Time): string {
    "**生成時刻**: " + Timestamp(date, time)
  }

  /** The article count line. */
  function CountLine(count: nat): string {
    "**記事数**: " + NatToString(count) + "件"
  }

  /** The keyword line, shown only when there are keywords. */
  function KeywordLine(doc: Doc): string {
    "**キーワード**: " + Join(TrendKeywords(doc), ", ")
  }

  /** Header and trend section, with the keyword line only when there are keywords. */
  function TrendLines(doc: Doc, count: nat, date: Date, time: Time): (r: seq<string>)
    ensures |r| == 11 || |r| == 13
    ensures |r| == 13 <==> TrendKeywords(doc) != []
    ensures r[0] == TitleLine(date)
    ensures r[9] == TrendSummary(doc)
    ensures |r| == 13 ==> r[11] == KeywordLine(doc)
  {
    TrendHeader(date, time, count) + TrendBody(doc) + (if TrendKeywords(doc) != [] then [KeywordLine(doc), ""] else [])
  }

  /** The four lines that open the document. */
  function TrendHeader(date: Date, time: Time, count: nat): (r: seq<string>)
    ensures |r| == 4
  {
    [TitleLine(date), "", StampLine(date, time), CountLine(count)]
  }

  /** The trend section's heading and summary. */
  function TrendBody(doc: Doc): (r: seq<string>)
    ensures |r| == 7 && r[5] == TrendSummary(doc)
  {
    ["", "---", "", "## 📊 本日のトレンド", "", TrendSummary(doc), ""]
  }

  /** The document's third and fourth lines give the generation time and the number of articles. */
  lemma TrendLinesStampAndCount(doc: Doc, count: nat, date: Date, time: Time)
    ensures TrendLines(doc, count, date, time)[2] == StampLine(date, time)
    ensures TrendLines(doc, count, date, time)[3] == CountLine(count)
  {
    assert TrendLines(doc, count, date, time)[..4] == TrendHeader(date, time, count);
  }

  /** The four lines of the topic at 1-based `position`. */
  function TopicLines(position: nat, t: Entry): seq<string> {
    [
      "### " + NatToString(position) + ". " + t.title.GetOr(""),
      "**分野**: " + t.category.GetOr("") + " | **重要度**: " + PaddedStars(t.importance.GetOr(DefaultImportance)),
      "> " + t.summary.GetOr(""),
      ""
    ]
  }

  /** The topic entries of `topics`, numbered from `from`. */
  function TopicsLines(topics: seq<Entry>, from: nat): (r: seq<string>)
    ensures |r| == 4 * |topics|
    ensures forall k :: 0 <= k < |topics| ==> r[4 * k..4 * k + 4] == TopicLines(from + k, topics[k])
    decreases |topics|
  {
    if |topics| == 0 then []
    else
      var rest := TopicsLines(topics[1..], from + 1);
      var r := TopicLines(from, topics[0]) + rest;
      assert forall k :: 1 <= k < |topics| ==> r[4 * k..4 * k + 4] == rest[4 * (k - 1)..4 * (k - 1) + 4];
      r
  }

  /** The lines of one item inside a category section, stars unpadded. */
  function ItemLines(t: Entry): seq<string> {
    ["- **" + t.title.GetOr("") + "** " + Stars(t), "  - " + t.summary.GetOr("")]
  }

  function ItemsLines(items: seq<Entry>): (r: seq<string>)
    ensures |r| == 2 * |items|
    ensures forall k :: 0 <= k < |items| ==> r[2 * k..2 * k + 2] == ItemLines(items[k])
    decreases |items|
  {
    if |items| == 0 then []
    else
      var rest := ItemsLines(items[1..]);
      var r := ItemLines(items[0]) + rest;
      assert forall k :: 1 <= k < |items| ==> r[2 * k..2 * k + 2] == rest[2 * (k - 1)..2 * (k - 1) + 2];
      r
  }

  /** The section for one category: nothing when it has no items. */
  function CategoryBlock(doc: Doc, category: string): seq<string> {
    var items := ItemsOf(doc, category);
    if items == [] then [] else ["### " + category, ""] + ItemsLines(items) + [""]
  }

  /** The sections for `names`, in that order. */
  function CategoryBlocks(doc: Doc, names: seq<string>): seq<string>
    decreases |names|
  {
    if |names| == 0 then [] else CategoryBlock(doc, names[0]) + CategoryBlocks(doc, names[1..])
  }

  /** The numbered list of all articles, numbered from `from`. */
  function ArticleIndex(arts: seq<Article>, from: nat): (r: seq<string>)
    ensures |r| == |arts|
    ensures forall k :: 0 <= k < |arts| ==>
      r[k] == NatToString(from + k) + ". [" + arts[k].title + "](" + arts[k].link + ")"
    decreases |arts|
  {
    if |arts| == 0 then []
    else [NatToString(from) + ". [" + arts[0].title + "](" + arts[0].link + ")"] + ArticleIndex(arts[1..], from + 1)
  }

  /** Everything before the article list. */
  function BodyLines(arts: seq<Article>, doc: Doc, date: Date, time: Time): seq<string> {
    TrendLines(doc, |arts|, date, time)
    + ["---", "", "## 🔥 注目トピック TOP5", ""]
    + TopicsLines(TopFive(doc.topTopics.GetOr([])), 1)
    + ["---", "", "## 📂 分野別サマリー", ""]
    + CategoryBlocks(doc, Categories)
  }

  /** The closing section: its heading and every article, numbered from 1. */
  function IndexSection(arts: seq<Article>): seq<string> {
    ["---", "", "## 📋 全記事一覧", ""] + ArticleIndex(arts, 1)
  }

  /** The whole document as lines, before joining. */
  function DocumentLines(arts: seq<Article>, doc: Doc, date: Date, time: Time): seq<string> {
    BodyLines(arts, doc, date, time) + IndexSection(arts)
  }

  /** The file's content: the lines joined with newlines. */
  function Document(arts: seq<Article>, doc: Doc, date: Date, time: Time): string {
    Join(DocumentLines(arts, doc, date, time), "\n")
  }

  /**
   * `save_markdown` on what the chain returned: the file's path and content,
   * the document's lines joined with newlines, each line at its `LineStart`.
   * A reply that is a JSON value other than an object has no `.get`, so saving
   * raises (None) and nothing is written.
   */
  function SaveMarkdown(arts: seq<Article>, v: Value, date: Date, time: Time): (r: Option<(string, string)>)
    ensures r.Some? <==> v.Object?
    ensures r.Some? ==> r.value.0 == DocumentPath(date)
    ensures r.Some? ==> r.value.1 == Document(arts, v.doc, date, time)
    ensures r.Some? ==> forall k :: 0 <= k < |DocumentLines(arts, v.doc, date, time)| ==>
              OccursAt(r.value.1, DocumentLines(arts, v.doc, date, time)[k], LineStart(DocumentLines(arts, v.doc, date, time), "\n", k))
    ensures r.Some? ==> (forall k :: 0 <= k < |DocumentLines(arts, v.doc, date, time)| ==> '\n' !in DocumentLines(arts, v.doc, date, time)[k])
                        ==> Split(r.value.1, "\n") == DocumentLines(arts, v.doc, date, time)
  {
    match v
    case NonObject(_) => None
    case Object(doc) =>
      DocumentReadsBack(arts, doc, date, time);
      var lines := DocumentLines(arts, doc, date, time);
      assert forall k :: 0 <= k < |lines| ==> OccursAt(Join(lines, "\n"), lines[k], LineStart(lines, "\n", k)) by {
        forall k | 0 <= k < |lines| ensures OccursAt(Join(lines, "\n"), lines[k], LineStart(lines, "\n", k)) {
          JoinLayout(lines, "\n", k);
        }
      }
      Some((DocumentPath(date), Document(arts, doc, date, time)))
  }

  /** When no line holds a newline, splitting the saved text on newlines gives the lines back. */
  lemma DocumentReadsBack(arts: seq<Article>, doc: Doc, date: Date, time: Time)
    ensures (forall k :: 0 <= k < |DocumentLines(arts, doc, date, time)| ==> '\n' !in DocumentLines(arts, doc, date, time)[k])
            ==> Split(Document(arts, doc, date, time), "\n") == DocumentLines(arts, doc, date, time)
  {
    var lines := DocumentLines(arts, doc, date, time);
    if forall k :: 0 <= k < |lines| ==> '\n' !in lines[k] {
      assert "\n" == ['\n'];
      SplitJoin(lines, '\n');
    }
  }

  /** The file the document is written to. */
  function DocumentPath(date: Date): string {
    "summaries/" + FileName(date)
  }

  // ---------------------------------------------------------------------
  // Category headings: which sections appear, and in which order.
  // ---------------------------------------------------------------------

  /** A third-level heading line. */
  predicate IsHeading(line: string) {
    |line| >= 4 && line[..4] == "### "
  }

  /** The heading lines of `lines`, in order. */
  function Headings(lines: seq<string>): seq<string>
    decreases |lines|
  {
    if |lines| == 0 then []
    else (if IsHeading(lines[0]) then [lines[0]] else []) + Headings(lines[1..])
  }

  /** The categories of `names` that have at least one item, in order. */
  function NonEmptyCategories(doc: Doc, names: seq<string>): seq<string>
    decreases |names|
  {
    if |names| == 0 then []
    else (if ItemsOf(doc, names[0]) != [] then [names[0]] else []) + NonEmptyCategories(doc, names[1..])
  }

  /** The heading line for each of `names`. */
  function HeadingLines(names: seq<string>): (r: seq<string>)
    ensures |r| == |names|
    ensures forall k :: 0 <= k < |names| ==> r[k] == "### " + names[k]
  {
    seq(|names|, k requires 0 <= k < |names| => "### " + names[k])
  }

  lemma HeadingLinesConcat(a: seq<string>, b: seq<string>)
    ensures HeadingLines(a + b) == HeadingLines(a) + HeadingLines(b)
  {
  }

  lemma {:induction false} HeadingsConcat(a: seq<string>, b: seq<string>)
    ensures Headings(a + b) == Headings(a) + Headings(b)
    decreases |a|
  {
    if |a| == 0 {
      assert a + b == b;
    } else {
      assert (a + b)[1..] == a[1..] + b;
      HeadingsConcat(a[1..], b);
    }
  }

  lemma {:induction false} ItemsLinesNoHeading(items: seq<Entry>)
    ensures Headings(ItemsLines(items)) == []
    decreases |items|
  {
    if |items| > 0 {
      var t := items[0];
      var first := "- **" + t.title.GetOr("") + "** " + Stars(t);
      var second := "  - " + t.summary.GetOr("");
      assert first[0] == '-';
      assert second[0] == ' ';
      assert !IsHeading(first) && !IsHeading(second);
      HeadingsConcat(ItemLines(t), ItemsLines(items[1..]));
      assert Headings(ItemLines(t)) == [] by {
        assert ItemLines(t)[1..] == [second];
        assert Headings([second]) == [] by {
          assert [second][1..] == [];
        }
      }
      ItemsLinesNoHeading(items[1..]);
    }
  }

  lemma CategoryBlockHeadings(doc: Doc, category: string)
    ensures Headings(CategoryBlock(doc, category)) ==
      if ItemsOf(doc, category) == [] then [] else ["### " + category]
  {
    var items := ItemsOf(doc, category);
    if items != [] {
      var h := "### " + category;
      assert IsHeading(h) by { assert h[..4] == "### "; }
      HeadingsConcat([h, ""] + ItemsLines(items), [""]);
      HeadingsConcat([h, ""], ItemsLines(items));
      ItemsLinesNoHeading(items);
      assert Headings([""]) == [] by { assert [""][1..] == []; }
      assert Headings([h, ""]) == [h] by {
        assert [h, ""][1..] == [""];
      }
    }
  }

  /**
   * The headings of the category part are exactly the non-empty categories of
   * `names`, in the order of `names`: empty categories get no section and
   * each non-empty one gets one.
   */
  lemma {:induction false} CategoryBlocksHeadings(doc: Doc, names: seq<string>)
    ensures Headings(CategoryBlocks(doc, names)) == HeadingLines(NonEmptyCategories(doc, names))
    decreases |names|
  {
    if |names| > 0 {
      HeadingsConcat(CategoryBlock(doc, names[0]), CategoryBlocks(doc, names[1..]));
      CategoryBlockHeadings(doc, names[0]);
      CategoryBlocksHeadings(doc, names[1..]);
      var first := if ItemsOf(doc, names[0]) != [] then [names[0]] else [];
      HeadingLinesConcat(first, NonEmptyCategories(doc, names[1..]));
    }
  }

  /** Every category that gets a section is one of `names` and has items. */
  lemma {:induction false} NonEmptyCategoriesSound(doc: Doc, names: seq<string>)
    ensures forall c :: c in NonEmptyCategories(doc, names) <==> c in names && ItemsOf(doc, c) != []
    decreases |names|
  {
    if |names| > 0 {
      NonEmptyCategoriesSound(doc, names[1..]);
    }
  }

  /**
   * The category sections list exactly those of the fixed categories the
   * summary has items for: a label outside the fixed list never gets a
   * section, whatever the backend returned.
   */
  lemma CategorySectionsOnlyKnown(doc: Doc)
    ensures Headings(CategoryBlocks(doc, Categories)) == HeadingLines(NonEmptyCategories(doc, Categories))
    ensures forall c :: c in NonEmptyCategories(doc, Categories) <==> c in Categories && ItemsOf(doc, c) != []
  {
    CategoryBlocksHeadings(doc, Categories);
    NonEmptyCategoriesSound(doc, Categories);
  }

  lemma IndexSectionLast(front: seq<string>, arts: seq<Article>)
    ensures var lines := front + IndexSection(arts);
      forall k :: 0 <= k < |arts| ==>
        lines[|lines| - |arts| + k] == NatToString(k + 1) + ". [" + arts[k].title + "](" + arts[k].link + ")"
  {
  }

  /** The document ends with the article list, which numbers every article from 1 in feed order. */
  lemma DocumentEndsWithIndex(arts: seq<Article>, doc: Doc, date: Date, time: Time)
    ensures var lines := DocumentLines(arts, doc, date, time);
      forall k :: 0 <= k < |arts| ==>
        lines[|lines| - |arts| + k] == NatToString(k + 1) + ". [" + arts[k].title + "](" + arts[k].link + ")"
  {
    IndexSectionLast(BodyLines(arts, doc, date, time), arts);
  }
}
