# nikkei-summary in Dafny

A model of the core of `scripts/summarize.py`. The script fetches the Nikkei RSS
feed and gets a JSON summary of the day's articles from a chain of three stages:

1. Gemini.
2. Anthropic, when Gemini fails.
3. A keyword classifier, when Anthropic fails too.

It then saves the summary as `summaries/YYYY-MM-DD.md` and pushes a short text
message to LINE.

The model covers the parts of that flow that are pure logic:

- **Keyword classifier** (`Classifier`, `ClassifierFacts`, `ClassifierExamples`).
  - Each article goes into the first category, in table order, whose keyword list has a
    case-sensitive substring of `title + " " + summary`. The catch-all is `その他`.
  - Summaries are cut to 100 characters, with `...` added.
  - The first five articles become the top topics.
- **Reply normalisation** (`Normalizer`).
  - The JSON is cut out of a ```` ```json ```` or ```` ``` ```` fence with the source's two
    `split` calls.
  - Whitespace is stripped. Control characters are deleted on the Anthropic path only.
  - `json.loads` is an abstract parser. A missing `daily_trend` gets a placeholder.
- **The chain** (`Chain`).
  - The backends' replies and the API keys are parameters.
  - The result is the first stage that succeeds.
  - A missing Gemini key escapes as an error.
- **The two renderers**: the LINE message (`Notification`) and the Markdown document with
  its file name (`Markdown`, `Calendar`). They read the summary through `dict.get` with
  defaults, modelled as a record of optional fields (`Schema.Doc`).
- **Python `str` operations and digits** (`Text`, `Numerals`). These cover `in`,
  `split`, `join`, `strip`, `c * n`, `str(n)` and the zero padding of `strftime`.

Three behaviours of the code are easy to miss, and the model keeps each of them:

- **Missing Gemini key.** `GOOGLE_API_KEY` is checked before the `try` (lines 70-72),
  so a missing or empty key raises `ValueError` and the chain can fail.
  `Chain.MissingGoogleKeyRaises` states this.
- **Control characters.** Only the Anthropic path deletes control characters (line 219);
  the Gemini path only strips (line 131).
- **Fence extraction.** With a ```` ```json ```` fence, the code first cuts at the *next*
  ```` ```json ````, then at the next ```` ``` ```` (line 127). `Normalizer.ExtractJsonFenced`
  states this two-step cut exactly.

Cleaning on the Anthropic path is not idempotent: a NUL before a space exposes that
space, and only a second `strip` removes it. When the exposed character is JSON
whitespace (space, tab, carriage return, line feed) `json.loads` skips it anyway. When it
is other Unicode whitespace, such as the ideographic space U+3000 or U+00A0, `json.loads`
rejects it (line 221), and the Anthropic attempt falls back to the keyword classifier
(lines 232-235). `Normalizer.AnthropicCleanExposesIdeographicSpace` exhibits such a reply.

## Model

| member | source | states |
|---|---|---|
| Text.FindFrom | scripts/summarize.py:126 | the result is an occurrence of the pattern at or after the start index, no earlier one exists, and None means no occurrence starts at or after the start index |
| Text.ContainsIff | scripts/summarize.py:264 | Python's `pat in s` holds exactly when `pat` occurs at some index of `s` |
| Text.Split | scripts/summarize.py:127 | `s.split(sep)[0]` is the text before the first separator (or all of `s`); there are two or more pieces exactly when `sep` occurs; the second piece is the text between the first and second separator; joining the pieces with `sep` gives back `s` |
| Text.SplitJoin | scripts/summarize.py:331 | splitting `c.join(lines)` on a one-character separator that no line contains gives back exactly the lines |
| Text.JoinLayout | scripts/summarize.py:331 | whatever the lines contain, `sep.join(lines)` holds line k at its `LineStart` (the lengths of the earlier lines plus one separator each), a separator after every line but the last, and ends with the last line |
| Text.Strip | scripts/summarize.py:131 | `strip()` never lengthens the text, leaves no whitespace at either end, and is empty exactly when the text is all whitespace |
| Text.StripRemovesOnlyEnds | scripts/summarize.py:131 | the stripped text is a contiguous slice of the input with only whitespace cut from both sides |
| Text.StripIdempotent | scripts/summarize.py:219 | stripping twice equals stripping once |
| Text.Repeat | scripts/summarize.py:323 | `c * n` has `max(n, 0)` characters, all equal to `c` |
| Numerals.NatToString | scripts/summarize.py:314 | the decimal rendering of `n` is a non-empty digit string whose value is `n` and that has no leading zero |
| Numerals.ParseNatToString | scripts/summarize.py:324 | reading back the rendering of `n` gives `n` |
| Numerals.ZeroPad | scripts/summarize.py:362 | zero padding keeps the value and gives width `max(digits, width)` |
| Calendar.PaddedWidth | scripts/summarize.py:362 | a number below `10^width` pads to exactly `width` digits |
| Calendar.FileNameRoundTrip | scripts/summarize.py:362 | the file name of any valid date parses back to that date |
| Calendar.FileNamePerDay | scripts/summarize.py:362 | two valid dates give the same file name exactly when they are the same day |
| Schema.ToDoc | scripts/summarize.py:268-291 | the classifier's dictionary carries the trend summary and keywords, the same category keys with lists of the same length whose k-th entry reads back as the k-th item, and the top topics, each reading back as its topic |
| Schema.ToDocLosesNothing | scripts/summarize.py:268-291 | two summaries with the same dictionary are equal: nothing is lost in the conversion |
| Classifier.KeywordTableShape | scripts/summarize.py:245-252 | the keyword table has one row per category except the catch-all, in the order of `CATEGORIES`, and the category labels are distinct |
| Classifier.FirstMatchFrom | scripts/summarize.py:263-266 | the row found is the first row from the start with a keyword in the text; None means no row from the start matches |
| Classifier.CategoryOfText | scripts/summarize.py:262-266 | the label is one of the seven categories; it is `その他` exactly when no keyword row matches; otherwise it is the label of the first matching row, and no earlier row matches |
| Classifier.Truncate | scripts/summarize.py:271 | a summary of at most 100 characters is kept; a longer one becomes its first 100 characters followed by `...` (103 characters) |
| Classifier.Bucket | scripts/summarize.py:257-274 | the list of a category holds exactly the articles labelled with it, once each, in feed order, each with its own title, truncated summary and importance 3 |
| Classifier.BucketMember | scripts/summarize.py:274 | an article is in a category's list exactly when the category is its label |
| Classifier.Positions | scripts/summarize.py:274 | the positions listed for a category are exactly the articles labelled with it, strictly increasing |
| Classifier.TopTopics | scripts/summarize.py:276-283 | there are `min(n, 5)` top topics, and the k-th is article k with index k+1, truncated summary, importance 3 and its own category |
| Classifier.Categorize | scripts/summarize.py:254-291 | the category keys are exactly the seven categories, there are `min(n, 5)` top topics, and the trend is the fixed fallback text with no keywords |
| Classifier.CategorizeFilesOnce | scripts/summarize.py:262-274 | article i is listed under category c exactly when c is the category its text selects |
| Classifier.CategorizeKeepsOrder | scripts/summarize.py:257-274 | each category list has strictly increasing indices, and each item carries the title and truncated summary of the article it indexes |
| Classifier.CategorizeTopTopics | scripts/summarize.py:276-283 | top topic k is article k, its category is the one its text selects, and it also appears in that category's list |
| ClassifierFacts.PositionsCount | scripts/summarize.py:274 | a category receives as many items as there are articles labelled with it |
| ClassifierFacts.CategorizeCountsEveryArticle | scripts/summarize.py:254-274 | the category lists together hold exactly as many items as there are articles, so none is lost or duplicated |
| ClassifierFacts.CategorizeWellFormed | scripts/summarize.py:268-283 | every index in the classifier's output lies in 1..n, every importance in 1..5, and there are at most five top topics |
| ClassifierExamples.TechnologyHeadline | scripts/summarize.py:246-248 | an article headed "AI" with no summary is filed under テクノロジー・DX, because the two rows before it do not match |
| ClassifierExamples.MarketsHeadline | scripts/summarize.py:246-251 | an article headed "株価上昇" with no summary is filed under 金融・市場, because none of the five rows before it matches |
| ClassifierExamples.PoliticsHeadline | scripts/summarize.py:246-247 | an article headed "国会" with no summary is filed under 政治・政策 |
| Normalizer.ExtractFenced | scripts/summarize.py:126-129 | a reply without a fence is kept whole, and the extracted text never contains a fence |
| Normalizer.ExtractJsonFenced | scripts/summarize.py:126-127 | with the first ```` ```json ```` at i, the result is the text after it up to the next ```` ```json ````, then up to the next ```` ``` ```` |
| Normalizer.ExtractSingleJsonFence | scripts/summarize.py:126-127 | with one ```` ```json ```` fence, the result is the text after it up to the next ```` ``` ```` or the end |
| Normalizer.ExtractBareFence | scripts/summarize.py:128-129 | without ```` ```json ````, the result is the text after the first ```` ``` ```` up to the next one or the end |
| Normalizer.Sanitize | scripts/summarize.py:219 | the result has no character in `[\x00-\x1f\x7f]` and is no longer than the input |
| Normalizer.SanitizeKeepsClean | scripts/summarize.py:219 | a text without control characters is left exactly as it was |
| Normalizer.SanitizeConcat | scripts/summarize.py:219 | deleting control characters from a concatenation equals deleting them from each part and concatenating, so kept characters keep their order |
| Normalizer.SanitizeCounts | scripts/summarize.py:219 | every other character keeps its number of occurrences, and control characters have none left |
| Normalizer.SanitizeIdempotent | scripts/summarize.py:219 | deleting control characters twice equals deleting them once |
| Normalizer.GeminiCleanIdempotent | scripts/summarize.py:126-131 | cleaning a Gemini reply twice (extract, strip) equals cleaning it once |
| Normalizer.AnthropicCleanNotIdempotent | scripts/summarize.py:212-219 | Anthropic cleaning of "\x00 {}" gives " {}", and cleaning that again gives "{}" |
| Normalizer.AnthropicCleanExposesIdeographicSpace | scripts/summarize.py:219-221 | Anthropic cleaning of "\x00" + U+3000 + "{}" leaves the ideographic space in front of "{}", which `json.loads` does not skip; cleaning again gives "{}" |
| Normalizer.FencedEqualsPlain | scripts/summarize.py:212-219 | a backtick-free body wrapped in a ```` ```json ```` fence cleans to the same text as the bare body |
| Normalizer.FencedParsesAsPlain | scripts/summarize.py:126-138 | for any parser, a fenced reply and its bare body normalise to the same result on both paths |
| Normalizer.RepairTrend | scripts/summarize.py:134-138 | an object keeps its categories and top topics; it keeps its `daily_trend` if present and otherwise gets the placeholder; a non-object passes unchanged when `"daily_trend" in` it holds and otherwise raises |
| Normalizer.RepairIdempotent | scripts/summarize.py:224-228 | repairing an already repaired value changes nothing |
| Chain.FirstSuccess | scripts/summarize.py:142-148 | the result is the first successful attempt's value, or the last resort when every attempt failed |
| Chain.GeminiAttempt | scripts/summarize.py:118-141 | a raised call fails the attempt; otherwise it succeeds exactly when the extracted and stripped reply parses to an object or to a value whose `"daily_trend" in` test holds (for any other value the test or the assignment on lines 134-135 raises `TypeError`), and then yields the parsed value with `daily_trend` repaired |
| Chain.AnthropicAttempt | scripts/summarize.py:155-231 | a missing or empty key or a raised call fails the attempt; otherwise it succeeds exactly when the extracted, stripped and sanitised reply parses to an object or to a value whose `"daily_trend" in` test holds, and then yields the parsed value with `daily_trend` repaired |
| Chain.Fallback | scripts/summarize.py:286-291 | the keyword classifier's dictionary is an object with all seven category keys and the fixed fallback trend with no keywords |
| Chain.SummarizeWithAnthropic | scripts/summarize.py:151-238 | Anthropic's result when its attempt succeeds, else the keyword classifier's |
| Chain.Summarize | scripts/summarize.py:66-148 | the chain fails exactly when the Gemini key is unset or empty; otherwise a successful Gemini attempt is the answer and a failed one hands over to the Anthropic stage |
| Chain.SummarizeIsFirstSuccess | scripts/summarize.py:66-238 | with the Gemini key set, the result is the first success among Gemini and Anthropic, with the keyword classifier as the last resort |
| Chain.GeminiSuccessWins | scripts/summarize.py:131-141 | a Gemini reply that normalises is the answer, whatever Anthropic would say |
| Chain.AnthropicAfterGeminiError | scripts/summarize.py:146-148 | when Gemini raises and Anthropic's reply normalises, that is the answer |
| Chain.DegradesToClassifier | scripts/summarize.py:232-238 | with the Gemini key set and both backends failing, the result is the keyword classifier's summary |
| Chain.ResultIsSomeStage | scripts/summarize.py:66-148 | with the Gemini key set, the result is Gemini's, Anthropic's, or the classifier's |
| Chain.MissingGoogleKeyRaises | scripts/summarize.py:70-72 | without a Gemini key, or with an empty one, the chain raises even though Anthropic would have answered |
| Notification.TopFive | scripts/summarize.py:322 | at most five topics are shown, and they are a prefix of the list |
| Notification.Stars | scripts/summarize.py:323 | the star string has `max(importance, 0)` stars, with importance 3 when absent |
| Notification.LinkedArticle | scripts/summarize.py:327-328 | a link exists exactly when the topic's index (defaulting to its position) lies in 1..n, and it is the article at that index minus one |
| Notification.TopicBlock | scripts/summarize.py:322-329 | a topic gets a numbered title line and a star line, plus a third line with the article's link exactly when its index is in range |
| Notification.TopicBlocks | scripts/summarize.py:322-329 | the topic lines number two per topic plus one per topic whose link resolves |
| Notification.TopicBlocksPlaced | scripts/summarize.py:322-329 | topic k's block, numbered from the start value plus k, sits right after two lines for each earlier topic and one link line for each earlier topic whose link resolves |
| Notification.MessageShape | scripts/summarize.py:311-329 | the message opens with the eight header lines (trend summary on the sixth), the topic blocks follow, and it has between 8 and 23 lines |
| Notification.LinkLineIffInRange | scripts/summarize.py:327-329 | the link line is present exactly when the index is in range, and then it is that article's link |
| Notification.NotificationText | scripts/summarize.py:306-331 | a message exists exactly when the summary is a JSON object; it is the message lines joined with newlines, each line at its `LineStart` whatever it contains, and when no line holds a newline it splits back into those lines |
| Notification.MessageReadsBack | scripts/summarize.py:331 | when no line holds a newline, splitting the message on newlines gives back its lines |
| Markdown.PaddedStars | scripts/summarize.py:396 | the rating has `max(n, 0) + max(5 - n, 0)` cells; cell i is ★ exactly when i < n, and every other cell is ☆ |
| Markdown.PaddedStarsInRange | scripts/summarize.py:396 | an importance in 0..5 gives exactly five cells, the first n filled |
| Markdown.PaddedStarsOverflow | scripts/summarize.py:396 | an importance above 5 gives n filled stars and no empty cell: the rating is not clamped |
| Markdown.TrendLines | scripts/summarize.py:366-386 | the header opens with the dated title and carries the trend summary, and the keyword line (comma-joined) is there exactly when keywords are non-empty |
| Markdown.TrendLinesStampAndCount | scripts/summarize.py:373-374 | the third line gives the generation time as `%Y-%m-%d %H:%M:%S` and the fourth the number of articles |
| Markdown.ItemsLines | scripts/summarize.py:412-416 | each item of a category takes two lines, and lines 2k and 2k+1 are item k's bold title with `importance` unpadded stars and its indented summary |
| Markdown.TopicsLines | scripts/summarize.py:395-400 | each topic takes four lines, and block k is the entry of topic k numbered from the start value |
| Markdown.ArticleIndex | scripts/summarize.py:424-425 | one line per article; line k reads `k+1. [title](link)` for article k |
| Markdown.SaveMarkdown | scripts/summarize.py:362-427 | the document is produced exactly when the summary is a JSON object; it goes to `summaries/` plus the day's file name; its content is the document lines joined with newlines, each line at its `LineStart` whatever it contains, and when no line holds a newline it splits back into those lines |
| Markdown.DocumentReadsBack | scripts/summarize.py:427 | when no line holds a newline, splitting the document on newlines gives back its lines |
| Markdown.CategoryBlocksHeadings | scripts/summarize.py:408-417 | the category part's headings are exactly `### ` plus each category that has items, in table order |
| Markdown.NonEmptyCategoriesSound | scripts/summarize.py:408-410 | a category gets a section exactly when it is in the list and has items |
| Markdown.CategorySectionsOnlyKnown | scripts/summarize.py:407-417 | only the seven fixed categories get sections, and each has items; labels outside the fixed list are never rendered |
| Markdown.DocumentEndsWithIndex | scripts/summarize.py:419-425 | the document ends with the article list, numbering every article from 1 in feed order |

## Left out

- Fetching the feed (`fetch_rss`, lines 42-63), the backend clients, the prompts and the
  HTTP push are left out. Each is I/O. The articles and the backends' replies are
  parameters, so the feed's cap of 30 entries (lines 23 and 51) bounds nothing in the model.
- `json.loads` is an abstract parameter (`Normalizer.Parser`). The model does not say
  which texts are valid JSON.
- Reading the environment is replaced by explicit key parameters. The LINE credential
  check (lines 298-303) and its early `return False` are left out.
- `send_error_notification`, `log` and `main` are left out: they orchestrate, print and
  send. Only the message strings of the two renderers are modelled.
- The clock, the `mkdir` and the file write are left out. The date and time are
  parameters.
- Calendar.FileNameRoundTrip: this covers years 1..9999 only, with `%Y` always four
  zero-padded digits. Platforms that print years below 1000 unpadded are not modelled.
- The client constructors on lines 74 and 160 run outside the `try`. Their exceptions
  would escape the chain; the model treats a client as never failing to construct.
- JSON values of the wrong type inside an object are not modelled. Examples are a string
  importance, a non-integer index, or `daily_trend: null`. The model types every field; in
  Python some of these raise and others print `None`.
- Keys of a model's reply other than `daily_trend`, `categories` and `top_topics` are not
  carried, since no renderer reads them.
- A non-object reply that passes the `daily_trend` test reaches the renderers. There its
  first `.get` raises, which is modelled as no output (None). What `main` does next is not
  modelled.
- Chain.GeminiAttempt: a reply whose text is None (raising at the `in` test) is folded
  into `Raised`.
- Markdown.DocumentPath: the path is relative (`summaries/` plus the file name). The
  `Path(__file__).parent.parent` prefix on line 363 depends on where the script is
  installed and is not modelled.
