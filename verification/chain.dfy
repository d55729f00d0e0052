/**
 * The summarising chain: Gemini first, Anthropic when Gemini fails, the
 * keyword classifier when Anthropic fails too. The backends' replies are
 * parameters, since the calls themselves are foreign.
 */
module Chain {
  import opened Options
  import opened Schema
  import opened Normalizer
  import Classifier

  /** What a backend call gave back: the reply text, or an exception. */
  datatype Reply = Answered(text: string) | Raised

  /** The credentials read from the environment (None when the variable is unset). */
  datatype Keys = Keys(google: Option<string>, anthropic: Option<string>)

  /** The one error that escapes the chain. */
  datatype ChainError = MissingGoogleKey

  /** Python's truthiness test `if not api_key`: unset and empty both count as missing. */
  predicate KeySet(key: Option<string>) {
    key.Some? && key.value != ""
  }

  /** The result of the first attempt that succeeded, or `last` when none did. */
  function FirstSuccess(attempts: seq<Option<Value>>, last: Value): (r: Value)
    ensures (forall k :: 0 <= k < |attempts| ==> attempts[k].None?) ==> r == last
    ensures forall k :: 0 <= k < |attempts| && attempts[k].Some? && (forall j :: 0 <= j < k ==> attempts[j].None?) ==>
              r == attempts[k].value
    decreases |attempts|
  {
    if |attempts| == 0 then last
    else if attempts[0].Some? then attempts[0].value
    else FirstSuccess(attempts[1..], last)
  }

  /** With two attempts: the first if it succeeded, else the second if it did, else `last`. */
  lemma FirstSuccessOfTwo(a: Option<Value>, b: Option<Value>, last: Value)
    ensures FirstSuccess([a, b], last) == if a.Some? then a.value else if b.Some? then b.value else last
  {
    assert [a, b][1..] == [b];
    assert [b][1..] == [];
  }

  /**
   * The Gemini attempt inside its `try`: None when the call, the parse or the
   * `daily_trend` test raises. It succeeds exactly when the cleaned reply parses
   * to an object, or to a value the `in` test accepts, and then yields that
   * value repaired.
   */
  function GeminiAttempt(reply: Reply, parse: Parser): (r: Option<Value>)
    ensures reply.Raised? ==> r.None?
    ensures r.Some? <==> reply.Answered? && parse(GeminiClean(reply.text)).Some?
                         && (parse(GeminiClean(reply.text)).value.Object? || parse(GeminiClean(reply.text)).value.hasTrendMember)
    ensures r.Some? ==> Some(r.value) == RepairTrend(parse(GeminiClean(reply.text)).value)
  {
    match reply
    case Raised => None
    case Answered(text) => GeminiNormalize(text, parse)
  }

  /**
   * The Anthropic attempt: None when the key is missing or the call, the parse
   * or the `daily_trend` test raises. With the key set it succeeds exactly when
   * the cleaned reply parses to an object, or to a value the `in` test accepts,
   * and then yields that value repaired.
   */
  function AnthropicAttempt(key: Option<string>, reply: Reply, parse: Parser): (r: Option<Value>)
    ensures !KeySet(key) ==> r.None?
    ensures reply.Raised? ==> r.None?
    ensures r.Some? <==> KeySet(key) && reply.Answered? && parse(AnthropicClean(reply.text)).Some?
                         && (parse(AnthropicClean(reply.text)).value.Object? || parse(AnthropicClean(reply.text)).value.hasTrendMember)
    ensures r.Some? ==> Some(r.value) == RepairTrend(parse(AnthropicClean(reply.text)).value)
  {
    if !KeySet(key) then None
    else match reply
      case Raised => None
      case Answered(text) => AnthropicNormalize(text, parse)
  }

  /** The keyword classifier's summary as the dictionary it returns. */
  function Fallback(arts: seq<Article>): (v: Value)
    ensures v.Object? && v.doc.categories.Some? && v.doc.categories.value.Keys == set c | c in Categories
    ensures v.doc.trend == Some(Trend(Some(Classifier.FallbackTrend), Some([])))
  {
    var s := Classifier.Categorize(arts);
    assert s.categories.Keys == set c | c in Categories;
    Object(ToDoc(s))
  }

  /** `summarize_with_anthropic`: Anthropic's result, or the keyword classifier's. */
  function SummarizeWithAnthropic(arts: seq<Article>, key: Option<string>, reply: Reply, parse: Parser): (v: Value)
    ensures AnthropicAttempt(key, reply, parse).Some? ==> v == AnthropicAttempt(key, reply, parse).value
    ensures AnthropicAttempt(key, reply, parse).None? ==> v == Fallback(arts)
  {
    match AnthropicAttempt(key, reply, parse)
    case Some(v) => v
    case None => Fallback(arts)
  }

  /**
   * `summarize_with_gemini`, the chain's entry. The missing-key check sits
   * outside the `try`, so a missing Gemini key escapes as an error; otherwise
   * the chain always yields a summary, taken from the first stage that succeeds.
   */
  function Summarize(arts: seq<Article>, keys: Keys, gemini: Reply, anthropic: Reply, parse: Parser)
    : (r: Result<Value, ChainError>)
    ensures r.Failure? <==> !KeySet(keys.google)
    ensures r.Success? && GeminiAttempt(gemini, parse).Some? ==> r.value == GeminiAttempt(gemini, parse).value
    ensures r.Success? && GeminiAttempt(gemini, parse).None? ==> r.value == SummarizeWithAnthropic(arts, keys.anthropic, anthropic, parse)
  {
    if !KeySet(keys.google) then Failure(MissingGoogleKey)
    else match GeminiAttempt(gemini, parse)
      case Some(v) => Success(v)
      case None => Success(SummarizeWithAnthropic(arts, keys.anthropic, anthropic, parse))
  }

  /** The chain is the first success among its two backends, the keyword classifier standing last. */
  lemma SummarizeIsFirstSuccess(arts: seq<Article>, keys: Keys, gemini: Reply, anthropic: Reply, parse: Parser)
    requires KeySet(keys.google)
    ensures Summarize(arts, keys, gemini, anthropic, parse).value == FirstSuccess(
              [GeminiAttempt(gemini, parse), AnthropicAttempt(keys.anthropic, anthropic, parse)], Fallback(arts))
  {
    FirstSuccessOfTwo(GeminiAttempt(gemini, parse), AnthropicAttempt(keys.anthropic, anthropic, parse), Fallback(arts));
  }

  /** A Gemini reply that parses is the answer; Anthropic is never consulted. */
  lemma GeminiSuccessWins(arts: seq<Article>, keys: Keys, text: string, anthropic: Reply, parse: Parser)
    requires KeySet(keys.google) && GeminiNormalize(text, parse).Some?
    ensures Summarize(arts, keys, Answered(text), anthropic, parse) == Success(GeminiNormalize(text, parse).value)
  {
  }

  /**
   * When Gemini raises and Anthropic's reply parses, the result is Anthropic's
   * repaired object, whatever the keyword classifier would have said.
   */
  lemma AnthropicAfterGeminiError(arts: seq<Article>, keys: Keys, text: string, parse: Parser)
    requires KeySet(keys.google) && KeySet(keys.anthropic) && AnthropicNormalize(text, parse).Some?
    ensures Summarize(arts, keys, Raised, Answered(text), parse) == Success(AnthropicNormalize(text, parse).value)
  {
    assert AnthropicAttempt(keys.anthropic, Answered(text), parse) == AnthropicNormalize(text, parse);
  }

  /** With a Gemini key set the chain never fails, and when both backends fail it is the keyword classifier's summary. */
  lemma DegradesToClassifier(arts: seq<Article>, keys: Keys, gemini: Reply, anthropic: Reply, parse: Parser)
    requires KeySet(keys.google)
    requires GeminiAttempt(gemini, parse).None? && AnthropicAttempt(keys.anthropic, anthropic, parse).None?
    ensures Summarize(arts, keys, gemini, anthropic, parse) == Success(Fallback(arts))
  {
  }

  /** The chain's result is always one of the three stages' results. */
  lemma ResultIsSomeStage(arts: seq<Article>, keys: Keys, gemini: Reply, anthropic: Reply, parse: Parser)
    requires KeySet(keys.google)
    ensures var v := Summarize(arts, keys, gemini, anthropic, parse).value;
      || Some(v) == GeminiAttempt(gemini, parse)
      || Some(v) == AnthropicAttempt(keys.anthropic, anthropic, parse)
      || v == Fallback(arts)
  {
  }

  /**
   * `GOOGLE_API_KEY` is tested before the `try`, so without it, or with it
   * empty, the chain raises `ValueError` even when Anthropic would have answered.
   */
  lemma MissingGoogleKeyRaises(arts: seq<Article>, anthropicKey: string, text: string, parse: Parser)
    requires anthropicKey != "" && AnthropicNormalize(text, parse).Some?
    ensures Summarize(arts, Keys(None, Some(anthropicKey)), Raised, Answered(text), parse) == Failure(MissingGoogleKey)
    ensures Summarize(arts, Keys(Some(""), Some(anthropicKey)), Raised, Answered(text), parse) == Failure(MissingGoogleKey)
  {
  }
}
