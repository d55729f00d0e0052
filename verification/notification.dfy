/**
 * The text of the push notification (`send_line_notification`): a fixed
 * header, the trend, and up to five numbered topics with unpadded stars and,
 * when the topic's index names an article, that article's link.
 */
module Notification {
  import opened Options
  import opened Text
  import opened Numerals
  import opened Schema
  import opened Calendar

  /** At most this many topics are shown, in both renderers. */
  const TopLimit: nat := 5

  /** Importance assumed for a topic or item that has none. */
  const DefaultImportance: int := 3

  /** Python's `xs[:5]`. */
  function TopFive(xs: seq<Entry>): (r: seq<Entry>)
    ensures |r| == if |xs| < TopLimit then |xs| else TopLimit
    ensures r == xs[..|r|]
  {
    if |xs| < TopLimit then xs else xs[..TopLimit]
  }

  /** `"★" * topic.get("importance", 3)`. */
  function Stars(t: Entry): (r: string)
    ensures |r| == if t.importance.GetOr(DefaultImportance) <= 0 then 0 else t.importance.GetOr(DefaultImportance)
    ensures forall i :: 0 <= i < |r| ==> r[i] == '★'
  {
    Repeat('★', t.importance.GetOr(DefaultImportance))
  }

  /** `summary_data.get("daily_trend", {}).get("summary", "")`. */
  function TrendSummary(doc: Doc): string {
    match doc.trend
    case None => ""
    case Some(t) => t.summary.GetOr("")
  }

  /**
   * The 0-based article a topic at 1-based `position` links to: its `index`
   * (defaulting to `position`) minus one, when that lies inside the list.
   */
  function LinkedArticle(t: Entry, position: nat, arts: seq<Article>): (r: Option<nat>)
    ensures r.Some? <==> 1 <= t.index.GetOr(position) <= |arts|
    ensures r.Some? ==> r.value < |arts| && r.value + 1 == t.index.GetOr(position)
  {
    var idx := t.index.GetOr(position) - 1;
    if 0 <= idx < |arts| then Some(idx) else None
  }

  /** The lines for the topic at 1-based `position`: title line, stars line, and the link line if it resolves. */
  function TopicBlock(position: nat, t: Entry, arts: seq<Article>): (r: seq<string>)
    ensures |r| == 3 <==> LinkedArticle(t, position, arts).Some?
    ensures |r| == 2 || |r| == 3
    ensures r[0] == NatToString(position) + ". [" + t.category.GetOr("") + "] " + t.title.GetOr("")
    ensures r[1] == "   " + Stars(t)
    ensures |r| == 3 ==> r[2] == "   " + arts[LinkedArticle(t, position, arts).value].link
  {
    [NatToString(position) + ". [" + t.category.GetOr("") + "] " + t.title.GetOr(""), "   " + Stars(t)]
    + match LinkedArticle(t, position, arts)
      case Some(i) => ["   " + arts[i].link]
      case None => []
  }

  /** How many of `topics`, numbered from `from`, link to an article. */
  function LinkCount(topics: seq<Entry>, from: nat, arts: seq<Article>): nat
    decreases |topics|
  {
    if |topics| == 0 then 0
    else (if LinkedArticle(topics[0], from, arts).Some? then 1 else 0) + LinkCount(topics[1..], from + 1, arts)
  }

  /** Counting the links of the first `k` topics: the first topic's, then those of the next `k - 1`. */
  lemma LinkCountPrefix(topics: seq<Entry>, from: nat, arts: seq<Article>, k: nat)
    requires 1 <= k <= |topics|
    ensures LinkCount(topics[..k], from, arts)
         == (if LinkedArticle(topics[0], from, arts).Some? then 1 else 0) + LinkCount(topics[1..][..k - 1], from + 1, arts)
  {
    assert topics[..k][1..] == topics[1..][..k - 1];
  }

  /** `block` occupies the lines of `lines` starting at `offset`. */
  predicate BlockAt(lines: seq<string>, offset: int, block: seq<string>) {
    0 <= offset && offset + |block| <= |lines| && lines[offset..offset + |block|] == block
  }

  /** A block keeps its place, shifted, when lines are put in front. */
  lemma BlockAtShift(head: seq<string>, rest: seq<string>, offset: int, block: seq<string>)
    requires BlockAt(rest, offset, block)
    ensures BlockAt(head + rest, |head| + offset, block)
  {
    assert (head + rest)[|head| + offset..|head| + offset + |block|] == rest[offset..offset + |block|];
  }

  /** The blocks of `topics`, numbered from `from` on. */
  function TopicBlocks(topics: seq<Entry>, from: nat, arts: seq<Article>): (r: seq<string>)
    ensures |r| == 2 * |topics| + LinkCount(topics, from, arts)
    ensures LinkCount(topics, from, arts) <= |topics|
    decreases |topics|
  {
    if |topics| == 0 then []
    else TopicBlock(from, topics[0], arts) + TopicBlocks(topics[1..], from + 1, arts)
  }

  /**
   * Topic k's block, numbered `from + k`, sits in the topic lines right after
   * the two lines of each earlier topic and the link lines of those whose link resolves.
   */
  predicate BlockPlaced(topics: seq<Entry>, from: nat, arts: seq<Article>, k: nat)
    requires k < |topics|
  {
    BlockAt(TopicBlocks(topics, from, arts), 2 * k + LinkCount(topics[..k], from, arts), TopicBlock(from + k, topics[k], arts))
  }

  /** The first topic's block opens the topic lines. */
  lemma FirstBlockPlaced(topics: seq<Entry>, from: nat, arts: seq<Article>)
    requires 0 < |topics|
    ensures BlockPlaced(topics, from, arts, 0)
  {
    var head := TopicBlock(from, topics[0], arts);
    assert topics[..0] == [];
    assert TopicBlocks(topics, from, arts)[..|head|] == head;
  }

  /** A block placed among the later topics' lines keeps its place behind the first topic's block. */
  lemma LaterBlockPlaced(topics: seq<Entry>, from: nat, arts: seq<Article>, k: nat)
    requires 1 <= k < |topics|
    requires BlockPlaced(topics[1..], from + 1, arts, k - 1)
    ensures BlockPlaced(topics, from, arts, k)
  {
    var head := TopicBlock(from, topics[0], arts);
    var rest := TopicBlocks(topics[1..], from + 1, arts);
    var offset := 2 * (k - 1) + LinkCount(topics[1..][..k - 1], from + 1, arts);
    BlockAtShift(head, rest, offset, TopicBlock(from + 1 + (k - 1), topics[1..][k - 1], arts));
    assert topics[1..][k - 1] == topics[k];
    LinkCountPrefix(topics, from, arts, k);
    assert |head| + offset == 2 * k + LinkCount(topics[..k], from, arts);
    assert TopicBlocks(topics, from, arts) == head + rest;
  }

  /** Every topic's block is placed where `BlockPlaced` says. */
  lemma {:induction false} TopicBlocksPlaced(topics: seq<Entry>, from: nat, arts: seq<Article>, k: nat)
    requires k < |topics|
    ensures BlockPlaced(topics, from, arts, k)
    decreases k
  {
    if k == 0 {
      FirstBlockPlaced(topics, from, arts);
    } else {
      TopicBlocksPlaced(topics[1..], from + 1, arts, k - 1);
      LaterBlockPlaced(topics, from, arts, k);
    }
  }

  /** The fixed lines before the topics. */
  function HeaderLines(doc: Doc, count: nat, date: Date): seq<string> {
    [
      "📰 日経新聞 本日のサマリー",
      "📅 " + JapaneseDate(date),
      "📊 本日の記事数: " + NatToString(count) + "件",
      "",
      "📈 本日のトレンド:",
      TrendSummary(doc),
      "",
      "🔥 注目トピック TOP5:"
    ]
  }

  /** The message as a list of lines, before joining with newlines. */
  function MessageLines(doc: Doc, arts: seq<Article>, count: nat, date: Date): seq<string> {
    HeaderLines(doc, count, date) + TopicBlocks(TopFive(doc.topTopics.GetOr([])), 1, arts)
  }

  /** The notification text: `"\n".join(message_lines)`. */
  function Message(doc: Doc, arts: seq<Article>, count: nat, date: Date): string {
    Join(MessageLines(doc, arts, count, date), "\n")
  }

  /**
   * The message has the eight header lines, then two lines for each of at most
   * five topics plus one per topic whose link resolves: so between 8 and 23 lines.
   */
  lemma MessageShape(doc: Doc, arts: seq<Article>, count: nat, date: Date)
    ensures var lines := MessageLines(doc, arts, count, date);
      var shown := TopFive(doc.topTopics.GetOr([]));
      && lines[..8] == HeaderLines(doc, count, date)
      && lines[5] == TrendSummary(doc)
      && lines[8..] == TopicBlocks(shown, 1, arts)
      && |lines| == 8 + 2 * |shown| + LinkCount(shown, 1, arts)
      && 8 <= |lines| <= 23
  {
    var lines := MessageLines(doc, arts, count, date);
    assert lines[..8] == HeaderLines(doc, count, date);
    assert lines[8..] == TopicBlocks(TopFive(doc.topTopics.GetOr([])), 1, arts);
  }

  /** A topic whose index is out of range gets no link line; one in range gets its article's link. */
  lemma LinkLineIffInRange(t: Entry, position: nat, arts: seq<Article>)
    ensures var block := TopicBlock(position, t, arts);
      && (|block| == 3 <==> 1 <= t.index.GetOr(position) <= |arts|)
      && (|block| == 3 ==> block[2] == "   " + arts[t.index.GetOr(position) - 1].link)
  {
  }

  /**
   * The message built from what the chain returned: its lines joined with
   * newlines. A reply that is a JSON value other than an object has no `.get`,
   * so building the message raises (None).
   */
  function NotificationText(v: Value, arts: seq<Article>, count: nat, date: Date): (r: Option<string>)
    ensures r.Some? <==> v.Object?
    ensures r.Some? ==> r.value == Message(v.doc, arts, count, date)
    ensures r.Some? ==> forall k :: 0 <= k < |MessageLines(v.doc, arts, count, date)| ==>
              OccursAt(r.value, MessageLines(v.doc, arts, count, date)[k], LineStart(MessageLines(v.doc, arts, count, date), "\n", k))
    ensures r.Some? ==> (forall k :: 0 <= k < |MessageLines(v.doc, arts, count, date)| ==> '\n' !in MessageLines(v.doc, arts, count, date)[k])
                        ==> Split(r.value, "\n") == MessageLines(v.doc, arts, count, date)
  {
    match v
    case NonObject(_) => None
    case Object(doc) =>
      MessageReadsBack(doc, arts, count, date);
      var lines := MessageLines(doc, arts, count, date);
      assert forall k :: 0 <= k < |lines| ==> OccursAt(Join(lines, "\n"), lines[k], LineStart(lines, "\n", k)) by {
        forall k | 0 <= k < |lines| ensures OccursAt(Join(lines, "\n"), lines[k], LineStart(lines, "\n", k)) {
          JoinLayout(lines, "\n", k);
        }
      }
      Some(Message(doc, arts, count, date))
  }

  /** When no line holds a newline, the receiver splitting the text on newlines gets the lines back. */
  lemma MessageReadsBack(doc: Doc, arts: seq<Article>, count: nat, date: Date)
    ensures (forall k :: 0 <= k < |MessageLines(doc, arts, count, date)| ==> '\n' !in MessageLines(doc, arts, count, date)[k])
            ==> Split(Message(doc, arts, count, date), "\n") == MessageLines(doc, arts, count, date)
  {
    var lines := MessageLines(doc, arts, count, date);
    if forall k :: 0 <= k < |lines| ==> '\n' !in lines[k] {
      assert "\n" == ['\n'];
      SplitJoin(lines, '\n');
    }
  }
}
