/**
 * Turning a language model's raw reply into a summary object: cut the JSON out
 * of a code fence, strip whitespace (and, on the Anthropic path only, control
 * characters), parse, and give the object a `daily_trend` if it has none.
 */
module Normalizer {
  import opened Options
  import opened Text
  import opened Schema

  const Fence: string := "```"
  const JsonFence: string := "```json"

  /** A ```json fence is also a ``` fence. */
  lemma JsonFenceHasFence(s: string)
    requires Contains(s, JsonFence)
    ensures Contains(s, Fence)
  {
    var i := Find(s, JsonFence).value;
    assert s[i..i + 3] == s[i..i + 7][..3];
    ContainsIff(s, Fence);
    assert OccursAt(s, Fence, i);
  }

  /**
   * The "JSONを抽出" block: after the first ```json (or, failing that, the
   * first ```) up to the next ```. A reply without any fence is kept whole.
   */
  function ExtractFenced(text: string): (r: string)
    ensures !Contains(text, Fence) ==> r == text
    ensures !Contains(r, Fence)
  {
    if Contains(text, JsonFence) then
      JsonFenceHasFence(text);
      var r := Split(Split(text, JsonFence)[1], Fence)[0];
      UpToExcludes(Split(text, JsonFence)[1], Fence, r);
      r
    else if Contains(text, Fence) then
      var r := Split(Split(text, Fence)[1], Fence)[0];
      UpToExcludes(Split(text, Fence)[1], Fence, r);
      r
    else
      text
  }

  /** The first piece of `Split(s, sep)` ends exactly where `sep` first occurs. */
  lemma SplitAtFirst(s: string, sep: string, i: nat)
    requires |sep| > 0 && Find(s, sep) == Some(i)
    ensures |Split(s, sep)| >= 2 && |Split(s, sep)[0]| == i
  {
    assert IsUpTo(s, sep, s[..i]);
    IsUpToUnique(s, sep, s[..i], Split(s, sep)[0]);
  }

  /**
   * With a ```json fence first at `i`, the result is cut from the text after it
   * in two steps, as `split` does: up to the next ```json, then up to the next ```.
   */
  lemma ExtractJsonFenced(text: string, i: nat)
    requires Find(text, JsonFence) == Some(i)
    ensures i + |JsonFence| <= |text|
    ensures exists seg :: IsUpTo(text[i + |JsonFence|..], JsonFence, seg) && IsUpTo(seg, Fence, ExtractFenced(text))
  {
    SplitAtFirst(text, JsonFence, i);
    var seg := Split(text, JsonFence)[1];
    assert IsUpTo(text[i + |JsonFence|..], JsonFence, seg);
    assert IsUpTo(seg, Fence, ExtractFenced(text));
  }

  /** With a single ```json fence at `i`, the result is the text after it up to the next ``` (or the end). */
  lemma ExtractSingleJsonFence(text: string, i: nat)
    requires Find(text, JsonFence) == Some(i)
    requires i + |JsonFence| <= |text| && !Contains(text[i + |JsonFence|..], JsonFence)
    ensures IsUpTo(text[i + |JsonFence|..], Fence, ExtractFenced(text))
  {
    SplitAtFirst(text, JsonFence, i);
    var rest := text[i + |JsonFence|..];
    var seg := Split(text, JsonFence)[1];
    assert IsUpTo(rest, JsonFence, rest);
    IsUpToUnique(rest, JsonFence, seg, rest);
  }

  /** Without ```json, a ``` fence first at `i` yields the text after it up to the next ``` (or the end). */
  lemma ExtractBareFence(text: string, i: nat)
    requires !Contains(text, JsonFence) && Find(text, Fence) == Some(i)
    ensures i + |Fence| <= |text|
    ensures IsUpTo(text[i + |Fence|..], Fence, ExtractFenced(text))
  {
    SplitAtFirst(text, Fence, i);
    var seg := Split(text, Fence)[1];
    assert IsUpTo(text[i + |Fence|..], Fence, seg);
    UpToExcludes(text[i + |Fence|..], Fence, seg);
    assert IsUpTo(seg, Fence, seg);
    IsUpToUnique(seg, Fence, seg, Split(seg, Fence)[0]);
  }

  /** The control characters the Anthropic path deletes: `[\x00-\x1f\x7f]`. */
  predicate IsControl(c: char) {
    c <= '\U{1F}' || c == '\U{7F}'
  }

  predicate NoControl(s: string) {
    forall i :: 0 <= i < |s| ==> !IsControl(s[i])
  }

  /** `re.sub(r'[\x00-\x1f\x7f]', '', s)`: every control character deleted. */
  function Sanitize(s: string): (r: string)
    ensures NoControl(r)
    ensures |r| <= |s|
    decreases |s|
  {
    if |s| == 0 then ""
    else (if IsControl(s[0]) then "" else [s[0]]) + Sanitize(s[1..])
  }

  /** Text without control characters passes through unchanged. */
  lemma {:induction false} SanitizeKeepsClean(s: string)
    requires NoControl(s)
    ensures Sanitize(s) == s
    decreases |s|
  {
    if |s| > 0 {
      SanitizeKeepsClean(s[1..]);
      assert s == [s[0]] + s[1..];
    }
  }

  /** Deleting works character by character, so the kept characters stay in order. */
  lemma {:induction false} SanitizeConcat(a: string, b: string)
    ensures Sanitize(a + b) == Sanitize(a) + Sanitize(b)
    decreases |a|
  {
    if |a| > 0 {
      var head := if IsControl(a[0]) then "" else [a[0]];
      assert (a + b)[0] == a[0];
      assert (a + b)[1..] == a[1..] + b;
      assert Sanitize(a + b) == head + Sanitize(a[1..] + b);
      SanitizeConcat(a[1..], b);
      assert Sanitize(a) == head + Sanitize(a[1..]);
    } else {
      assert a + b == b;
    }
  }

  /** Every non-control character keeps its number of occurrences; control characters have none left. */
  lemma {:induction false} SanitizeCounts(s: string, c: char)
    ensures multiset(Sanitize(s))[c] == if IsControl(c) then 0 else multiset(s)[c]
    decreases |s|
  {
    if |s| > 0 {
      SanitizeCounts(s[1..], c);
      assert s == [s[0]] + s[1..];
    }
  }

  /** Deleting control characters twice deletes nothing more. */
  lemma SanitizeIdempotent(s: string)
    ensures Sanitize(Sanitize(s)) == Sanitize(s)
  {
    SanitizeKeepsClean(Sanitize(s));
  }

  /** The Gemini path: fence extraction, then `.strip()`; control characters stay. */
  function GeminiClean(reply: string): string {
    Strip(ExtractFenced(reply))
  }

  /** The Anthropic path: fence extraction, `.strip()`, then control-character deletion. */
  function AnthropicClean(reply: string): string {
    Sanitize(Strip(ExtractFenced(reply)))
  }

  /** A substring of fence-free text is fence-free. */
  lemma SliceKeepsNoFence(s: string, a: int, b: int)
    requires 0 <= a <= b <= |s| && !Contains(s, Fence)
    ensures !Contains(s[a..b], Fence)
  {
    ContainsIff(s, Fence);
    ContainsIff(s[a..b], Fence);
    forall j | OccursAt(s[a..b], Fence, j) ensures OccursAt(s, Fence, a + j) {
      var u := s[a + j..a + j + |Fence|];
      var v := s[a..b][j..j + |Fence|];
      assert forall k :: 0 <= k < |u| ==> u[k] == v[k];
      assert u == v;
    }
  }

  /** A slice of fence-free text, named as its own string, is fence-free. */
  lemma SliceNoFence(s: string, a: int, b: int, r: string)
    requires 0 <= a <= b <= |s| && r == s[a..b] && !Contains(s, Fence)
    ensures !Contains(r, Fence)
  {
    SliceKeepsNoFence(s, a, b);
  }

  /** Stripping fence-free text leaves it fence-free. */
  lemma StripNoFence(e: string)
    requires !Contains(e, Fence)
    ensures !Contains(Strip(e), Fence)
  {
    StripRemovesOnlyEnds(e);
    var a :| StrippedAt(e, Strip(e), a);
    SliceNoFence(e, a, a + |Strip(e)|, Strip(e));
  }

  /** Fence-free text passes fence extraction untouched. */
  lemma FenceFreeKept(t: string)
    requires !Contains(t, Fence)
    ensures ExtractFenced(t) == t
  {
  }

  /** Stripping fence-free text leaves it fence-free, so a second extraction keeps it. */
  lemma StripKeepsNoFence(e: string)
    requires !Contains(e, Fence)
    ensures ExtractFenced(Strip(e)) == Strip(e)
  {
    StripNoFence(e);
    FenceFreeKept(Strip(e));
  }

  /** Cleaning on the Gemini path is idempotent. */
  lemma GeminiCleanIdempotent(reply: string)
    ensures GeminiClean(GeminiClean(reply)) == GeminiClean(reply)
  {
    var e := ExtractFenced(reply);
    StripKeepsNoFence(e);
    StripIdempotent(e);
  }

  /** Text without a backtick passes fence extraction untouched. */
  lemma NoBacktickNoFence(s: string)
    requires '`' !in s
    ensures ExtractFenced(s) == s
  {
    MissingCharNotContained(s, Fence, 0);
  }

  /** Text already free of surrounding whitespace is left alone by `.strip()`. */
  lemma StripKeeps(s: string)
    requires |s| > 0 && !IsSpace(s[0]) && !IsSpace(s[|s| - 1])
    ensures Strip(s) == s
  {
    assert LStrip(s) == s;
  }

  lemma CleanNulSpaceBraces(s: string)
    requires s == "\U{0} {}"
    ensures AnthropicClean(s) == " {}"
  {
    NoBacktickNoFence(s);
    StripKeeps(s);
    assert s == [s[0]] + " {}";
    SanitizeConcat([s[0]], " {}");
  }

  /** `.strip()` of one whitespace character before already-stripped text gives that text. */
  lemma StripDropsLeadingSpace(c: char, u: string)
    requires IsSpace(c) && |u| > 0 && !IsSpace(u[0]) && !IsSpace(u[|u| - 1])
    ensures Strip([c] + u) == u
  {
    assert ([c] + u)[1..] == u;
    assert LStrip([c] + u) == LStrip(u);
    StripKeeps(u);
  }

  /** Cleaning one whitespace character before stripped, backtick-free, control-free text gives that text. */
  lemma CleanDropsLeadingSpace(c: char, u: string)
    requires IsSpace(c) && c != '`' && '`' !in u && NoControl(u)
    requires |u| > 0 && !IsSpace(u[0]) && !IsSpace(u[|u| - 1])
    ensures AnthropicClean([c] + u) == u
  {
    NoBacktickNoFence([c] + u);
    StripDropsLeadingSpace(c, u);
    SanitizeKeepsClean(u);
  }

  lemma CleanSpaceBraces(t: string)
    requires t == " {}"
    ensures AnthropicClean(t) == "{}"
  {
    var u := "{}";
    assert t == [' '] + u;
    CleanDropsLeadingSpace(' ', u);
  }

  /**
   * Cleaning on the Anthropic path is not idempotent: deleting a leading NUL
   * exposes a space that only a second `.strip()` removes.
   */
  lemma AnthropicCleanNotIdempotent()
    ensures AnthropicClean("\U{0} {}") == " {}"
    ensures AnthropicClean(AnthropicClean("\U{0} {}")) == "{}"
  {
    CleanNulSpaceBraces("\U{0} {}");
    CleanSpaceBraces(" {}");
  }

  /**
   * The same happens with whitespace that is not JSON whitespace: after a NUL,
   * an ideographic space (U+3000) is hidden from `.strip()`, and deleting the NUL
   * leaves it at the front of the cleaned text, where `json.loads` rejects it.
   */
  lemma AnthropicCleanExposesIdeographicSpace()
    ensures AnthropicClean("\U{0}\U{3000}{}") == "\U{3000}{}"
    ensures AnthropicClean(AnthropicClean("\U{0}\U{3000}{}")) == "{}"
  {
    CleanNulIdeographicBraces("\U{0}\U{3000}{}");
    CleanIdeographicBraces("\U{3000}{}");
  }

  lemma CleanNulIdeographicBraces(s: string)
    requires s == "\U{0}\U{3000}{}"
    ensures AnthropicClean(s) == "\U{3000}{}"
  {
    NoBacktickNoFence(s);
    StripKeeps(s);
    assert s == [s[0]] + "\U{3000}{}";
    SanitizeConcat([s[0]], "\U{3000}{}");
  }

  lemma CleanIdeographicBraces(t: string)
    requires t == "\U{3000}{}"
    ensures AnthropicClean(t) == "{}"
  {
    var u := "{}";
    assert t == ['\U{3000}'] + u;
    CleanDropsLeadingSpace('\U{3000}', u);
  }

  /** Backtick-free text followed by a fence contains no ```json. */
  lemma NoJsonFenceBeforeFence(body: string)
    requires '`' !in body
    ensures !Contains(body + Fence, JsonFence)
  {
    var rest := body + Fence;
    ContainsIff(rest, JsonFence);
    forall j | 0 <= j && j + |JsonFence| <= |rest| ensures !OccursAt(rest, JsonFence, j) {
      assert j < |body|;
      assert rest[j] == body[j] && body[j] != '`';
      assert rest[j..j + |JsonFence|][0] == rest[j];
      assert JsonFence[0] == '`';
    }
  }

  /** In backtick-free text followed by a fence, the text up to the fence is the body. */
  lemma BodyUpToFence(body: string)
    requires '`' !in body
    ensures IsUpTo(body + Fence, Fence, body)
  {
    var rest := body + Fence;
    forall j | 0 <= j < |body| ensures !OccursAt(rest, Fence, j) {
      assert rest[j] == body[j] && body[j] != '`';
      if j + |Fence| <= |rest| {
        assert rest[j..j + |Fence|][0] == rest[j];
      }
    }
    assert rest[|body|..] == Fence;
  }

  /** Fence extraction recovers the body of a ```json fence around backtick-free text. */
  lemma ExtractFromJsonFence(body: string)
    requires '`' !in body
    ensures ExtractFenced(JsonFence + body + Fence) == body
  {
    var text := JsonFence + body + Fence;
    assert OccursAt(text, JsonFence, 0);
    var rest := text[|JsonFence|..];
    assert rest == body + Fence;
    NoJsonFenceBeforeFence(body);
    ExtractSingleJsonFence(text, 0);
    BodyUpToFence(body);
    IsUpToUnique(rest, Fence, body, ExtractFenced(text));
  }

  /** A reply wrapped in a ```json fence cleans to the same text as the bare body, on both paths. */
  lemma FencedEqualsPlain(body: string)
    requires '`' !in body
    ensures GeminiClean(JsonFence + body + Fence) == GeminiClean(body)
    ensures AnthropicClean(JsonFence + body + Fence) == AnthropicClean(body)
  {
    ExtractFromJsonFence(body);
    NoBacktickNoFence(body);
  }

  /** Placeholder `daily_trend` given to a model's reply that lacks one. */
  const MissingTrend: Trend := Trend(Some("トレンド分析は取得できませんでした。"), Some([]))

  /**
   * The `daily_trend` repair after `json.loads`. An object without the key gains
   * the placeholder; any other JSON value makes the source's membership test or
   * item assignment raise (None), unless `"daily_trend" in value` holds, in
   * which case it is passed on unchanged.
   */
  function RepairTrend(v: Value): (r: Option<Value>)
    ensures v.Object? ==> r.Some? && r.value.Object?
    ensures v.Object? ==> r.value.doc.categories == v.doc.categories && r.value.doc.topTopics == v.doc.topTopics
    ensures v.Object? && v.doc.trend.Some? ==> r.value.doc.trend == v.doc.trend
    ensures v.Object? && v.doc.trend.None? ==> r.value.doc.trend == Some(MissingTrend)
    ensures v.NonObject? ==> (r.Some? <==> v.hasTrendMember) && (r.Some? ==> r.value == v)
  {
    match v
    case Object(d) => if d.trend.None? then Some(Object(d.(trend := Some(MissingTrend)))) else Some(v)
    case NonObject(member) => if member then Some(v) else None
  }

  /** Repairing a repaired value changes nothing. */
  lemma RepairIdempotent(v: Value)
    requires RepairTrend(v).Some?
    ensures RepairTrend(RepairTrend(v).value) == RepairTrend(v)
  {
  }

  /** `json.loads`, left abstract: None when the text is not valid JSON. */
  type Parser = string -> Option<Value>

  /** Everything the Gemini path does after the reply arrives; None when it would raise. */
  function GeminiNormalize(reply: string, parse: Parser): Option<Value> {
    match parse(GeminiClean(reply))
    case None => None
    case Some(v) => RepairTrend(v)
  }

  /** Everything the Anthropic path does after the reply arrives; None when it would raise. */
  function AnthropicNormalize(reply: string, parse: Parser): Option<Value> {
    match parse(AnthropicClean(reply))
    case None => None
    case Some(v) => RepairTrend(v)
  }

  /** Any parser reads a fenced reply and its bare body alike, on both paths. */
  lemma FencedParsesAsPlain(body: string, parse: Parser)
    requires '`' !in body
    ensures GeminiNormalize(JsonFence + body + Fence, parse) == GeminiNormalize(body, parse)
    ensures AnthropicNormalize(JsonFence + body + Fence, parse) == AnthropicNormalize(body, parse)
  {
    FencedEqualsPlain(body);
  }
}
