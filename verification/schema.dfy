/**
 * The records that flow through one summarising run: the fetched articles,
 * the canonical summary the keyword classifier builds, and the loosely typed
 * object a language model's JSON reply parses into.
 */
module Schema {
  import opened Options

  /** One RSS entry as the feed adapter hands it over; absent fields are "". */
  datatype Article = Article(title: string, link: string, published: string, summary: string)

  /** The fixed category labels, in declaration order; the last one is the catch-all. */
  const Categories: seq<string> := [
    "経済・景気",
    "政治・政策",
    "テクノロジー・DX",
    "国際情勢",
    "企業・産業",
    "金融・市場",
    "その他"
  ]

  /** The catch-all category. */
  const Other: string := "その他"

  /** A categorised article: `index` is its 1-based position in the article list. */
  datatype Item = Item(index: int, title: string, summary: string, importance: int)

  /** A headline topic: an item together with the category it was filed under. */
  datatype Topic = Topic(index: int, title: string, summary: string, importance: int, category: string)

  /** The summary every classifier stage is meant to produce. */
  datatype Summary = Summary(
    trendSummary: string,
    trendKeywords: seq<string>,
    categories: map<string, seq<Item>>,
    topTopics: seq<Topic>)

  /** The invariants of a canonical summary over `n` articles. */
  ghost predicate WellFormed(s: Summary, n: nat) {
    && (forall c :: c in s.categories <==> c in Categories)
    && (forall c, k :: c in s.categories && 0 <= k < |s.categories[c]| ==>
          1 <= s.categories[c][k].index <= n && 1 <= s.categories[c][k].importance <= 5)
    && |s.topTopics| <= 5
    && (forall k :: 0 <= k < |s.topTopics| ==>
          1 <= s.topTopics[k].index <= n && 1 <= s.topTopics[k].importance <= 5)
  }

  /*
   * The loosely typed view. A model's reply may omit any key; the renderers read
   * every key through `dict.get(key, default)`, so each is optional here.
   */

  /** A category item or a top topic as a JSON object; `category` is only read on topics. */
  datatype Entry = Entry(
    index: Option<int>,
    title: Option<string>,
    summary: Option<string>,
    importance: Option<int>,
    category: Option<string>)

  /** The `daily_trend` object. */
  datatype Trend = Trend(summary: Option<string>, keywords: Option<seq<string>>)

  /** A summary object as parsed from JSON: `daily_trend`, `categories`, `top_topics`, each optional. */
  datatype Doc = Doc(
    trend: Option<Trend>,
    categories: Option<map<string, seq<Entry>>>,
    topTopics: Option<seq<Entry>>)

  /**
   * What parsing a reply yields: an object, or some other JSON value (array,
   * string, number, boolean, null). For the latter, `hasTrendMember` records
   * whether Python's `"daily_trend" in value` is true, which happens only for an
   * array holding that string or a string containing it.
   */
  datatype Value = Object(doc: Doc) | NonObject(hasTrendMember: bool)

  function ItemEntry(it: Item): Entry {
    Entry(Some(it.index), Some(it.title), Some(it.summary), Some(it.importance), None)
  }

  function TopicEntry(t: Topic): Entry {
    Entry(Some(t.index), Some(t.title), Some(t.summary), Some(t.importance), Some(t.category))
  }

  /** Reads a category item back from its dictionary; None when a key it needs is missing. */
  function EntryItem(e: Entry): (r: Option<Item>)
    ensures r.Some? <==> e.index.Some? && e.title.Some? && e.summary.Some? && e.importance.Some?
  {
    if e.index.Some? && e.title.Some? && e.summary.Some? && e.importance.Some? then
      Some(Item(e.index.value, e.title.value, e.summary.value, e.importance.value))
    else None
  }

  /** Reads a top topic back from its dictionary; None when a key it needs is missing. */
  function EntryTopic(e: Entry): (r: Option<Topic>)
    ensures r.Some? <==> e.index.Some? && e.title.Some? && e.summary.Some? && e.importance.Some? && e.category.Some?
  {
    if e.index.Some? && e.title.Some? && e.summary.Some? && e.importance.Some? && e.category.Some? then
      Some(Topic(e.index.value, e.title.value, e.summary.value, e.importance.value, e.category.value))
    else None
  }

  /**
   * A canonical summary as the dictionary the classifier returns: the trend
   * object, one list of item dictionaries per category and the topic dictionaries.
   */
  function ToDoc(s: Summary): (d: Doc)
    ensures d.trend == Some(Trend(Some(s.trendSummary), Some(s.trendKeywords)))
    ensures d.categories.Some? && d.topTopics.Some?
    ensures d.categories.value.Keys == s.categories.Keys
    ensures forall c :: c in s.categories ==> |d.categories.value[c]| == |s.categories[c]|
    ensures forall c, k :: c in s.categories && 0 <= k < |s.categories[c]| ==>
              EntryItem(d.categories.value[c][k]) == Some(s.categories[c][k])
    ensures |d.topTopics.value| == |s.topTopics|
    ensures forall k :: 0 <= k < |s.topTopics| ==> EntryTopic(d.topTopics.value[k]) == Some(s.topTopics[k])
  {
    Doc(
      Some(Trend(Some(s.trendSummary), Some(s.trendKeywords))),
      Some(map c | c in s.categories :: seq(|s.categories[c]|, k requires 0 <= k < |s.categories[c]| => ItemEntry(s.categories[c][k]))),
      Some(seq(|s.topTopics|, k requires 0 <= k < |s.topTopics| => TopicEntry(s.topTopics[k]))))
  }

  /** Nothing of the summary is lost in its dictionary: two summaries with the same dictionary are equal. */
  lemma ToDocLosesNothing(s1: Summary, s2: Summary)
    requires ToDoc(s1) == ToDoc(s2)
    ensures s1 == s2
  {
    var d1, d2 := ToDoc(s1), ToDoc(s2);
    assert s1.categories.Keys == s2.categories.Keys;
    forall c | c in s1.categories
      ensures s1.categories[c] == s2.categories[c]
    {
      assert |s1.categories[c]| == |s2.categories[c]|;
      forall k | 0 <= k < |s1.categories[c]|
        ensures s1.categories[c][k] == s2.categories[c][k]
      {
        assert EntryItem(d1.categories.value[c][k]) == Some(s1.categories[c][k]);
        assert EntryItem(d2.categories.value[c][k]) == Some(s2.categories[c][k]);
      }
    }
    assert s1.categories == s2.categories;
    forall k | 0 <= k < |s1.topTopics|
      ensures s1.topTopics[k] == s2.topTopics[k]
    {
      assert EntryTopic(d1.topTopics.value[k]) == Some(s1.topTopics[k]);
      assert EntryTopic(d2.topTopics.value[k]) == Some(s2.topTopics[k]);
    }
  }
}
