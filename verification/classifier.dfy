/**
 * The keyword classifier, the last stage of the summarising chain: it needs
 * no network, cannot fail, files each article under the first category whose
 * keyword list has a (case-sensitive) substring of the article's text, and
 * flags the first five articles as the day's topics.
 */
module Classifier {
  import opened Options
  import opened Text
  import opened Schema

  /** The keyword table in declaration order; the catch-all category has no row. */
  const Keywords: seq<(string, seq<string>)> := [
    ("経済・景気", ["GDP", "景気", "消費", "物価", "インフレ", "デフレ", "成長"]),
    ("政治・政策", ["政府", "首相", "国会", "法案", "選挙", "政党", "内閣"]),
    ("テクノロジー・DX", ["AI", "DX", "IT", "デジタル", "半導体", "ソフトウェア", "クラウド"]),
    ("国際情勢", ["米国", "中国", "EU", "外交", "貿易", "国連", "戦争"]),
    ("企業・産業", ["決算", "売上", "利益", "事業", "新製品", "M&A", "買収"]),
    ("金融・市場", ["株価", "為替", "日銀", "金利", "投資", "債券", "円安", "円高"])
  ]

  /** The trend text of a keyword-classified summary. */
  const FallbackTrend: string := "本日のニューストレンドは自動分析できませんでした。"

  /** Summaries longer than this are cut and marked with `Ellipsis`. */
  const SummaryLimit: nat := 100
  const Ellipsis: string := "..."

  /** Every keyword-classified item gets this importance. */
  const FlatImportance: int := 3

  /** How many leading articles become top topics. */
  const TopCount: nat := 5

  /** The table's rows are the categories in order, minus the catch-all, and the labels are distinct. */
  lemma KeywordTableShape()
    ensures |Keywords| == 6 && |Categories| == 7
    ensures forall k :: 0 <= k < |Keywords| ==> Keywords[k].0 == Categories[k]
    ensures Categories[6] == Other
    ensures forall i, j :: 0 <= i < j < |Categories| ==> Categories[i] != Categories[j]
  {
  }

  /** Python's `any(word in text for word in words)`. */
  predicate AnyIn(text: string, words: seq<string>) {
    exists w | w in words :: Contains(text, w)
  }

  /** The first table row at or after `from` with a keyword in `text`. */
  function FirstMatchFrom(text: string, from: nat): (r: Option<nat>)
    requires from <= |Keywords|
    ensures r.Some? ==> from <= r.value < |Keywords| && AnyIn(text, Keywords[r.value].1)
    ensures r.Some? ==> forall k :: from <= k < r.value ==> !AnyIn(text, Keywords[k].1)
    ensures r.None? ==> forall k :: from <= k < |Keywords| ==> !AnyIn(text, Keywords[k].1)
    decreases |Keywords| - from
  {
    if from == |Keywords| then None
    else if AnyIn(text, Keywords[from].1) then Some(from)
    else FirstMatchFrom(text, from + 1)
  }

  /**
   * The category of a piece of text: the first category in declaration order
   * with a matching keyword, or the catch-all when none matches.
   */
  function CategoryOfText(text: string): (c: string)
    ensures c in Categories
    ensures c == Other <==> forall k :: 0 <= k < |Keywords| ==> !AnyIn(text, Keywords[k].1)
    ensures forall k :: 0 <= k < |Keywords| && c == Categories[k] ==>
              AnyIn(text, Keywords[k].1) && forall j :: 0 <= j < k ==> !AnyIn(text, Keywords[j].1)
  {
    KeywordTableShape();
    match FirstMatchFrom(text, 0)
    case Some(k) => Keywords[k].0
    case None => Other
  }

  /** The text an article is classified by: title, a space, summary. */
  function ArticleText(a: Article): string {
    a.title + " " + a.summary
  }

  function CategoryOf(a: Article): string {
    CategoryOfText(ArticleText(a))
  }

  /** The summary shown for a classified article: at most 100 characters, then "..." if anything was cut. */
  function Truncate(s: string): (r: string)
    ensures |s| <= SummaryLimit ==> r == s
    ensures |s| > SummaryLimit ==> |r| == SummaryLimit + |Ellipsis| && r[..SummaryLimit] == s[..SummaryLimit] && r[SummaryLimit..] == Ellipsis
  {
    if |s| > SummaryLimit then s[..SummaryLimit] + Ellipsis else s
  }

  /** The item built for the article at 0-based position `i`. */
  function ItemAt(arts: seq<Article>, i: nat): Item
    requires i < |arts|
  {
    Item(i + 1, arts[i].title, Truncate(arts[i].summary), FlatImportance)
  }

  /** The category of every article, in feed order. */
  function Labels(arts: seq<Article>): (labels: seq<string>)
    ensures |labels| == |arts|
    ensures forall i :: 0 <= i < |arts| ==> labels[i] == CategoryOf(arts[i])
    ensures forall i :: 0 <= i < |arts| ==> labels[i] in Categories
  {
    seq(|arts|, i requires 0 <= i < |arts| => CategoryOf(arts[i]))
  }

  /** The top topic built for the article at 0-based position `i`, filed under `labels[i]`. */
  function TopicAt(arts: seq<Article>, labels: seq<string>, i: nat): Topic
    requires i < |arts| == |labels|
  {
    Topic(i + 1, arts[i].title, Truncate(arts[i].summary), FlatImportance, labels[i])
  }

  /** Some item of `items` refers to the article with 1-based index `index`. */
  predicate ItemIn(items: seq<Item>, index: int) {
    exists k :: 0 <= k < |items| && items[k].index == index
  }

  /**
   * The 0-based positions whose label is `c`, in increasing order: the articles
   * the source's loop appends to the list of category `c`.
   */
  function Positions(labels: seq<string>, c: string): (r: seq<nat>)
    ensures forall k :: 0 <= k < |r| ==> r[k] < |labels| && labels[r[k]] == c
    ensures forall k, l :: 0 <= k < l < |r| ==> r[k] < r[l]
    ensures forall i :: 0 <= i < |labels| && labels[i] == c ==> i in r
    decreases |labels|
  {
    if |labels| == 0 then []
    else
      var n := |labels| - 1;
      var init := Positions(labels[..n], c);
      if labels[n] == c then init + [n] else init
  }

  /**
   * `items` lists exactly the articles labelled `c`, in feed order, each as its
   * item: what the source's loop appends to the list of `c`.
   */
  predicate IsBucket(items: seq<Item>, arts: seq<Article>, labels: seq<string>, c: string)
    requires |labels| == |arts|
  {
    && ListsInFeedOrder(items, arts)
    && (forall k :: 0 <= k < |items| ==> labels[items[k].index - 1] == c)
    && (forall i :: 0 <= i < |arts| && labels[i] == c ==> ItemIn(items, i + 1))
  }

  /** The items of the positions labelled `c`, taken in order, form the list of `c`. */
  lemma PositionsMakeBucket(arts: seq<Article>, labels: seq<string>, c: string, r: seq<Item>)
    requires |labels| == |arts|
    requires |r| == |Positions(labels, c)|
    requires forall k :: 0 <= k < |r| ==> r[k] == ItemAt(arts, Positions(labels, c)[k])
    ensures IsBucket(r, arts, labels, c)
  {
    var p := Positions(labels, c);
    forall k | 0 <= k < |r|
      ensures r[k].index == p[k] + 1
    {
    }
    forall i | 0 <= i < |arts| && labels[i] == c
      ensures ItemIn(r, i + 1)
    {
      var k :| 0 <= k < |p| && p[k] == i;
      assert r[k].index == i + 1;
    }
  }

  /** An article is in the list of `c` exactly when it is labelled `c`. */
  lemma BucketMember(items: seq<Item>, arts: seq<Article>, labels: seq<string>, c: string, i: nat)
    requires |labels| == |arts| && i < |arts| && IsBucket(items, arts, labels, c)
    ensures ItemIn(items, i + 1) <==> labels[i] == c
  {
    if ItemIn(items, i + 1) {
      var k :| 0 <= k < |items| && items[k].index == i + 1;
      assert labels[items[k].index - 1] == c;
    }
  }

  /** The list of category `c`: the item of every article labelled `c`, in feed order. */
  function Bucket(arts: seq<Article>, labels: seq<string>, c: string): (r: seq<Item>)
    requires |labels| == |arts|
    ensures |r| == |Positions(labels, c)|
    ensures IsBucket(r, arts, labels, c)
  {
    var p := Positions(labels, c);
    var r := seq(|p|, k requires 0 <= k < |p| => ItemAt(arts, p[k]));
    PositionsMakeBucket(arts, labels, c, r);
    r
  }

  /**
   * The top topics after the source's loop has seen every article of `arts`:
   * a topic is appended while fewer than five have been collected.
   */
  function TopTopics(arts: seq<Article>, labels: seq<string>): (r: seq<Topic>)
    requires |labels| == |arts|
    ensures |r| == if |arts| < TopCount then |arts| else TopCount
    ensures forall k :: 0 <= k < |r| ==> r[k] == TopicAt(arts, labels, k)
    decreases |arts|
  {
    if |arts| == 0 then []
    else
      var n := |arts| - 1;
      var init := TopTopics(arts[..n], labels[..n]);
      assert forall i :: 0 <= i < n ==> TopicAt(arts[..n], labels[..n], i) == TopicAt(arts, labels, i);
      if |init| < TopCount then init + [TopicAt(arts, labels, n)] else init
  }

  /**
   * The keyword classifier (`fallback_categorize`): one list per category, the
   * first five articles as top topics, and a placeholder trend.
   */
  function Categorize(arts: seq<Article>): (s: Summary)
    ensures forall c :: c in s.categories <==> c in Categories
    ensures |s.topTopics| == if |arts| < TopCount then |arts| else TopCount
    ensures s.trendSummary == FallbackTrend && s.trendKeywords == []
  {
    var labels := Labels(arts);
    Summary(FallbackTrend, [], map c | c in Categories :: Bucket(arts, labels, c), TopTopics(arts, labels))
  }

  /** The list `Categorize` keeps under `c`. */
  lemma CategorizeList(arts: seq<Article>, c: string)
    requires c in Categories
    ensures c in Categorize(arts).categories
    ensures Categorize(arts).categories[c] == Bucket(arts, Labels(arts), c)
  {
  }

  /** Each article is filed under exactly one category: the one its text selects. */
  lemma CategorizeFilesOnce(arts: seq<Article>, i: nat, c: string)
    requires i < |arts| && c in Categories
    ensures ItemIn(Categorize(arts).categories[c], i + 1) <==> c == CategoryOf(arts[i])
  {
    var labels := Labels(arts);
    CategorizeList(arts, c);
    BucketMember(Bucket(arts, labels, c), arts, labels, c, i);
  }

  /**
   * `items` lists articles of `arts` in feed order, each by its 1-based index
   * with the title, truncated summary and flat importance of that article.
   */
  predicate ListsInFeedOrder(items: seq<Item>, arts: seq<Article>) {
    && (forall k, l :: 0 <= k < l < |items| ==> items[k].index < items[l].index)
    && (forall k :: 0 <= k < |items| ==>
          1 <= items[k].index <= |arts| && items[k] == ItemAt(arts, items[k].index - 1))
  }

  /** Within each category list, items keep feed order and carry their article's title and summary. */
  lemma CategorizeKeepsOrder(arts: seq<Article>, c: string)
    requires c in Categories
    ensures ListsInFeedOrder(Categorize(arts).categories[c], arts)
  {
    CategorizeList(arts, c);
  }

  /** The top topics are the leading articles in feed order, each listed under its own category too. */
  lemma CategorizeTopTopics(arts: seq<Article>, k: nat)
    requires k < |Categorize(arts).topTopics|
    ensures var t := Categorize(arts).topTopics[k];
      && t == TopicAt(arts, Labels(arts), k)
      && t.category == CategoryOf(arts[k])
      && t.category in Categorize(arts).categories
      && ItemIn(Categorize(arts).categories[t.category], t.index)
  {
    var labels := Labels(arts);
    var t := Categorize(arts).topTopics[k];
    assert t == TopicAt(arts, labels, k);
    CategorizeList(arts, labels[k]);
  }
}

module ClassifierFacts {
  import opened Options
  import opened Text
  import opened Schema
  import opened Classifier

  /** The sum of the list lengths of the categories `cs` in `m`. */
  function SizeSum(cs: seq<string>, m: map<string, seq<Item>>): nat
  {
    if |cs| == 0 then 0 else (if cs[0] in m then |m[cs[0]]| else 0) + SizeSum(cs[1..], m)
  }

  /** How many of `labels` equal `c`. */
  function Count(labels: seq<string>, c: string): nat
    decreases |labels|
  {
    if |labels| == 0 then 0
    else Count(labels[..|labels| - 1], c) + (if labels[|labels| - 1] == c then 1 else 0)
  }

  /** The total, over the categories `cs`, of how many labels name each. */
  function PositionSum(cs: seq<string>, labels: seq<string>): nat
  {
    if |cs| == 0 then 0 else Count(labels, cs[0]) + PositionSum(cs[1..], labels)
  }

  /** The positions of `c` are as many as its occurrences among the labels. */
  lemma {:induction false} PositionsCount(labels: seq<string>, c: string)
    ensures |Positions(labels, c)| == Count(labels, c)
    decreases |labels|
  {
    if |labels| > 0 {
      PositionsCount(labels[..|labels| - 1], c);
    }
  }

  function Occurrences(cs: seq<string>, x: string): nat
  {
    if |cs| == 0 then 0 else (if cs[0] == x then 1 else 0) + Occurrences(cs[1..], x)
  }

  predicate Distinct(cs: seq<string>) {
    forall i, j :: 0 <= i < j < |cs| ==> cs[i] != cs[j]
  }

  lemma {:induction false} OccurrencesOfMember(cs: seq<string>, x: string)
    requires Distinct(cs)
    ensures Occurrences(cs, x) == if x in cs then 1 else 0
    decreases |cs|
  {
    if |cs| > 0 {
      OccurrencesOfMember(cs[1..], x);
      if cs[0] == x {
        assert x !in cs[1..] by {
          forall j | 0 <= j < |cs[1..]| ensures cs[1..][j] != x {
            assert cs[j + 1] != cs[0];
          }
        }
      }
      assert x in cs <==> cs[0] == x || x in cs[1..];
    }
  }

  /** Adding one more label grows the position lists of `cs` by the number of times it occurs in `cs`. */
  lemma {:induction false} PositionSumStep(cs: seq<string>, labels: seq<string>)
    requires |labels| > 0
    ensures PositionSum(cs, labels) == PositionSum(cs, labels[..|labels| - 1]) + Occurrences(cs, labels[|labels| - 1])
    decreases |cs|
  {
    if |cs| > 0 {
      PositionSumStep(cs[1..], labels);
    }
  }

  lemma {:induction false} PositionSumTotal(cs: seq<string>, labels: seq<string>)
    requires Distinct(cs)
    requires forall i :: 0 <= i < |labels| ==> labels[i] in cs
    ensures PositionSum(cs, labels) == |labels|
    decreases |labels|
  {
    if |labels| > 0 {
      var n := |labels| - 1;
      assert forall i :: 0 <= i < n ==> labels[..n][i] in cs;
      PositionSumTotal(cs, labels[..n]);
      PositionSumStep(cs, labels);
      OccurrencesOfMember(cs, labels[n]);
    } else {
      PositionSumEmpty(cs, labels);
    }
  }

  lemma PositionSumEmpty(cs: seq<string>, labels: seq<string>)
    requires |labels| == 0
    ensures PositionSum(cs, labels) == 0
  {
  }

  lemma {:induction false} SizeSumIsPositionSum(cs: seq<string>, arts: seq<Article>)
    requires forall k :: 0 <= k < |cs| ==> cs[k] in Categories
    ensures SizeSum(cs, Categorize(arts).categories) == PositionSum(cs, Labels(arts))
    decreases |cs|
  {
    if |cs| > 0 {
      SizeSumIsPositionSum(cs[1..], arts);
      assert Categorize(arts).categories[cs[0]] == Bucket(arts, Labels(arts), cs[0]);
      PositionsCount(Labels(arts), cs[0]);
    }
  }

  /** No article is lost or duplicated: the category lists hold exactly as many items as there are articles. */
  lemma CategorizeCountsEveryArticle(arts: seq<Article>)
    ensures SizeSum(Categories, Categorize(arts).categories) == |arts|
  {
    SizeSumIsPositionSum(Categories, arts);
    KeywordTableShape();
    PositionSumTotal(Categories, Labels(arts));
  }

  /** The keyword classifier always yields a canonical summary over its articles. */
  lemma CategorizeWellFormed(arts: seq<Article>)
    ensures WellFormed(Categorize(arts), |arts|)
  {
    var s := Categorize(arts);
    forall c | c in s.categories
      ensures forall k :: 0 <= k < |s.categories[c]| ==>
                1 <= s.categories[c][k].index <= |arts| && 1 <= s.categories[c][k].importance <= 5
    {
      CategorizeKeepsOrder(arts, c);
      ItemsInRange(s.categories[c], arts);
    }
    TopTopicsInRange(arts);
  }

  lemma ItemsInRange(items: seq<Item>, arts: seq<Article>)
    requires ListsInFeedOrder(items, arts)
    ensures forall k :: 0 <= k < |items| ==> 1 <= items[k].index <= |arts| && 1 <= items[k].importance <= 5
  {
    forall k | 0 <= k < |items|
      ensures 1 <= items[k].importance <= 5
    {
      assert items[k] == ItemAt(arts, items[k].index - 1);
    }
  }

  lemma TopTopicsInRange(arts: seq<Article>)
    ensures var t := Categorize(arts).topTopics;
      forall k :: 0 <= k < |t| ==> 1 <= t[k].index <= |arts| && 1 <= t[k].importance <= 5
  {
    var labels := Labels(arts);
    var t := TopTopics(arts, labels);
    assert Categorize(arts).topTopics == t;
    forall k | 0 <= k < |t|
      ensures 1 <= t[k].index <= |arts| && 1 <= t[k].importance <= 5
    {
      assert t[k] == TopicAt(arts, labels, k);
    }
  }
}

/** The keyword table at work on sample headlines. */
module ClassifierExamples {
  import opened Options
  import opened Text
  import opened Schema
  import opened Classifier
  import opened ClassifierFacts

  /** The first row (from `from` on) with a keyword in `text` is the one the classifier picks. */
  lemma {:induction false} FirstMatchIs(text: string, from: nat, k: nat)
    requires from <= k < |Keywords| && AnyIn(text, Keywords[k].1)
    requires forall j :: from <= j < k ==> !AnyIn(text, Keywords[j].1)
    ensures FirstMatchFrom(text, from) == Some(k)
    decreases k - from
  {
    if from < k {
      FirstMatchIs(text, from + 1, k);
    }
  }

  /** Text whose first matching row is `k` is filed under that row's category. */
  lemma CategoryFromRow(text: string, k: nat)
    requires k < |Keywords| && AnyIn(text, Keywords[k].1)
    requires forall j :: 0 <= j < k ==> !AnyIn(text, Keywords[j].1)
    ensures CategoryOfText(text) == Keywords[k].0
  {
    FirstMatchIs(text, 0, k);
  }

  /** No keyword of row `k` occurs in `text` when each starts with a character `text` lacks. */
  lemma RowMisses(text: string, k: nat)
    requires k < |Keywords|
    requires forall w :: w in Keywords[k].1 ==> |w| > 0 && w[0] !in text
    ensures !AnyIn(text, Keywords[k].1)
  {
    forall w | w in Keywords[k].1 ensures !Contains(text, w) {
      MissingCharNotContained(text, w, 0);
    }
  }

  /** Row `k` matches `text` because its keyword `w` starts `text`. */
  lemma RowHits(text: string, k: nat, w: string)
    requires k < |Keywords| && w in Keywords[k].1 && OccursAt(text, w, 0)
    ensures AnyIn(text, Keywords[k].1)
  {
    ContainsIff(text, w);
  }

  /** No row before `k` has a keyword in `text` when each keyword starts with a character `text` lacks. */
  lemma RowsMiss(text: string, k: nat)
    requires k <= |Keywords|
    requires forall j, w :: 0 <= j < k && w in Keywords[j].1 ==> |w| > 0 && w[0] !in text
    ensures forall j :: 0 <= j < k ==> !AnyIn(text, Keywords[j].1)
  {
    forall j | 0 <= j < k ensures !AnyIn(text, Keywords[j].1) {
      RowMisses(text, j);
    }
  }

  /** In "AI " the economy and politics rows miss and the technology row hits. */
  lemma TechnologyRows(t: string)
    requires t == "AI "
    ensures forall j :: 0 <= j < 2 ==> !AnyIn(t, Keywords[j].1)
    ensures AnyIn(t, Keywords[2].1)
  {
    RowsMiss(t, 2);
    RowHits(t, 2, "AI");
  }

  /** In "株価上昇 " the first five rows miss ("上" of "売上" is not its first character) and the markets row hits. */
  lemma MarketsRows(t: string)
    requires t == "株価上昇 "
    ensures forall j :: 0 <= j < 5 ==> !AnyIn(t, Keywords[j].1)
    ensures AnyIn(t, Keywords[5].1)
  {
    RowsMiss(t, 5);
    RowHits(t, 5, "株価");
  }

  /** In "国会 " the economy row misses and the politics row hits. */
  lemma PoliticsRows(t: string)
    requires t == "国会 "
    ensures forall j :: 0 <= j < 1 ==> !AnyIn(t, Keywords[j].1)
    ensures AnyIn(t, Keywords[1].1)
  {
    RowsMiss(t, 1);
    RowHits(t, 1, "国会");
  }

  /** An article headed "AI" with no summary is filed under technology. */
  lemma TechnologyHeadline(a: Article)
    requires a.title == "AI" && a.summary == ""
    ensures CategoryOf(a) == "テクノロジー・DX"
  {
    assert ArticleText(a) == "AI ";
    TechnologyRows(ArticleText(a));
    CategoryFromRow(ArticleText(a), 2);
  }

  /** An article headed "株価上昇" with no summary is filed under markets. */
  lemma MarketsHeadline(a: Article)
    requires a.title == "株価上昇" && a.summary == ""
    ensures CategoryOf(a) == "金融・市場"
  {
    assert ArticleText(a) == "株価上昇 ";
    MarketsRows(ArticleText(a));
    CategoryFromRow(ArticleText(a), 5);
  }

  /** An article headed "国会" with no summary is filed under politics. */
  lemma PoliticsHeadline(a: Article)
    requires a.title == "国会" && a.summary == ""
    ensures CategoryOf(a) == "政治・政策"
  {
    assert ArticleText(a) == "国会 ";
    PoliticsRows(ArticleText(a));
    CategoryFromRow(ArticleText(a), 1);
  }
}
