/**
 * The text-generation client (services/openai_service.py). The remote model
 * call and `json.loads` are not modelled: the reply of the remote model is an
 * optional string (absent when the call fails or carries no content) and the
 * parser is a partial function handed in by the caller.
 */
module OpenAiService {
  import opened Wrappers
  import opened Models
  import opened Text

  const Fence: string := "```"
  const JsonFence: string := "```json"

  /**
   * The abstract collaborators: what the remote model replies to a quiz
   * request (transcript, language) and to a translation request (text,
   * from_lang, to_lang), and the JSON parser.
   */
  datatype Oracle = Oracle(
    quizReply: (string, string) -> Option<string>,
    translationReply: (string, string, string) -> Option<string>,
    parseJson: string -> Option<Json>)

  /** `s[len(p):]` when `s` starts with `p`, otherwise `s`. */
  function DropPrefix(s: string, p: string): (r: string)
    ensures |r| <= |s| && r == s[|s| - |r|..]
    ensures StartsWith(s, p) ==> |r| == |s| - |p|
    ensures !StartsWith(s, p) ==> r == s
  {
    if StartsWith(s, p) then s[|p|..] else s
  }

  /** `s[:-len(p)]` when `s` ends with `p`, otherwise `s`. */
  function DropSuffix(s: string, p: string): (r: string)
    ensures |r| <= |s| && r == s[..|r|]
    ensures EndsWith(s, p) ==> |r| == |s| - |p|
    ensures !EndsWith(s, p) ==> r == s
  {
    if EndsWith(s, p) then s[..|s| - |p|] else s
  }

  /**
   * The clean-up both service functions apply to the model's reply: strip,
   * drop a leading "```json", then a leading "```", then one trailing "```",
   * strip again. The result is no longer than the reply and has no
   * whitespace at either end.
   */
  function StripFences(raw: string): (r: string)
    ensures |r| <= |raw|
    ensures r == [] || (!IsWhitespace(r[0]) && !IsWhitespace(r[|r| - 1]))
  {
    Strip(DropSuffix(DropPrefix(DropPrefix(Strip(raw), JsonFence), Fence), Fence))
  }

  /** A slice `t[p..q]` of a slice `t == s[a..b]` is the slice `s[a + p..a + q]`. */
  lemma SliceOfSlice(s: string, a: nat, b: nat, t: string, p: nat, q: nat)
    requires a <= b <= |s| && t == s[a..b] && p <= q <= |t|
    ensures t[p..q] == s[a + p..a + q]
  {
    assert forall k :: 0 <= k < q - p ==> t[p..q][k] == s[a + p + k];
  }

  lemma DropPrefixOfSlice(s: string, a: nat, b: nat, t: string, prefix: string) returns (a': nat)
    requires a <= b <= |s| && t == s[a..b]
    ensures a <= a' <= b && DropPrefix(t, prefix) == s[a'..b]
  {
    var r := DropPrefix(t, prefix);
    SliceOfSlice(s, a, b, t, |t| - |r|, |t|);
    a' := a + (|t| - |r|);
  }

  lemma DropSuffixOfSlice(s: string, a: nat, b: nat, t: string, suffix: string) returns (b': nat)
    requires a <= b <= |s| && t == s[a..b]
    ensures a <= b' <= b && DropSuffix(t, suffix) == s[a..b']
  {
    var r := DropSuffix(t, suffix);
    SliceOfSlice(s, a, b, t, 0, |r|);
    b' := a + |r|;
  }

  lemma StripOfSlice(s: string, a: nat, b: nat, t: string) returns (a': nat, b': nat)
    requires a <= b <= |s| && t == s[a..b]
    ensures a <= a' <= b' <= b && Strip(t) == s[a'..b']
  {
    var p, q := StripIsSlice(t);
    SliceOfSlice(s, a, b, t, p, q);
    a', b' := a + p, a + q;
  }

  /** The cleaned reply is a contiguous piece of the raw reply, so never longer than it. */
  lemma StripFencesSlice(raw: string) returns (i: nat, j: nat)
    ensures i <= j <= |raw| && StripFences(raw) == raw[i..j]
    ensures |StripFences(raw)| <= |raw|
  {
    var c0 := Strip(raw);
    var a0, b0 := StripOfSlice(raw, 0, |raw|, raw);
    var c1 := DropPrefix(c0, JsonFence);
    var a1 := DropPrefixOfSlice(raw, a0, b0, c0, JsonFence);
    var c2 := DropPrefix(c1, Fence);
    var a2 := DropPrefixOfSlice(raw, a1, b0, c1, Fence);
    var c3 := DropSuffix(c2, Fence);
    var b3 := DropSuffixOfSlice(raw, a2, b0, c2, Fence);
    i, j := StripOfSlice(raw, a2, b3, c3);
  }

  lemma JsonFenceIsFenced(s: string)
    requires StartsWith(s, JsonFence)
    ensures StartsWith(s, Fence)
  {
    assert s[..|Fence|] == s[..|JsonFence|][..|Fence|];
  }

  /** A reply whose stripped form neither starts nor ends with "```" comes out merely stripped. */
  lemma StripFencesUnfenced(raw: string)
    requires !StartsWith(Strip(raw), Fence) && !EndsWith(Strip(raw), Fence)
    ensures StripFences(raw) == Strip(raw)
  {
    var c0 := Strip(raw);
    if StartsWith(c0, JsonFence) {
      JsonFenceIsFenced(c0);
    }
    assert DropSuffix(DropPrefix(DropPrefix(c0, JsonFence), Fence), Fence) == c0;
    StripIdempotent(raw);
  }

  /** On a reply with no whitespace at either end the first `strip` does nothing. */
  lemma StripFencesTrimmed(w: string)
    requires w == [] || (!IsWhitespace(w[0]) && !IsWhitespace(w[|w| - 1]))
    ensures StripFences(w) == Strip(DropSuffix(DropPrefix(DropPrefix(w, JsonFence), Fence), Fence))
  {
    StripTrimmed(w);
  }

  /** "```" + s loses its "```"; with the closing fence it loses that too, unless s is a short run of backquotes. */
  lemma DropFences(s: string)
    requires !StartsWith(s, Fence)
    ensures DropSuffix(DropPrefix(s + Fence, Fence), Fence) == s
  {
    var c1 := s + Fence;
    var c2 := DropPrefix(c1, Fence);
    if StartsWith(c1, Fence) {
      // Only a run of fewer than three backquotes can begin a "```" together with the closing fence.
      assert |s| < 3;
      assert forall k :: 0 <= k < |s| ==> s[k] == c1[k] == '`';
      assert |c2| == |s|;
      assert forall k :: 0 <= k < |s| ==> c2[k] == c1[k + 3] == '`';
      assert c2 == s;
    } else {
      assert c2[|c2| - |Fence|..] == Fence;
      assert c2[..|c2| - |Fence|] == s;
    }
  }

  /** Wrapping content in "```json" ... "```" changes nothing once the fences are stripped. */
  lemma StripFencesWrapped(s: string)
    requires !StartsWith(s, Fence)
    ensures StripFences(JsonFence + s + Fence) == Strip(s)
  {
    var w := JsonFence + s + Fence;
    assert DropPrefix(w, JsonFence) == s + Fence by {
      assert w[..|JsonFence|] == JsonFence;
      assert w[|JsonFence|..] == s + Fence;
    }
    DropFences(s);
    StripFencesTrimmed(w);
  }

  /** "```json" is tried before "```": both prefixes go. */
  lemma StripFencesBothPrefixes()
    ensures StripFences("```json```x") == "x"
  {
    var raw := "```json```x";
    StripTrimmed(raw);
    assert raw[..7] == JsonFence;
    var c1 := raw[7..];
    assert c1 == "```x";
    assert c1[..3] == Fence;
    assert c1[3..] == "x";
    StripTrimmed("x");
  }

  /** Only one trailing "```" is removed. */
  lemma StripFencesOneSuffix()
    ensures StripFences("a``````") == "a```"
  {
    var raw := "a``````";
    StripTrimmed(raw);
    assert raw[..3] != Fence && raw[..7] != JsonFence;
    assert raw[|raw| - 3..] == Fence;
    assert raw[..|raw| - 3] == "a```";
    StripTrimmed("a```");
  }

  /** The single question returned when quiz generation fails. */
  const FallbackQuestion: QuizQuestion := QuizQuestion(
    "What is the main topic of this video?",
    ["Food and markets", "Sports", "Technology", "Travel"],
    0,
    "The video discusses food and markets.")

  /** The fallback quiz as the JSON value `generate_quiz` returns. */
  function FallbackQuizJson(): (r: Json)
    ensures DecodeQuestions(r) == Some([FallbackQuestion])
    ensures |FallbackQuestion.options| == 4 && 0 <= FallbackQuestion.correctAnswer < |FallbackQuestion.options|
  {
    DecodeEncodeQuestions([FallbackQuestion]);
    JArray([JObject(map[
      "question" := JString("What is the main topic of this video?"),
      "options" := JArray([JString("Food and markets"), JString("Sports"), JString("Technology"), JString("Travel")]),
      "correct_answer" := JNumber(0),
      "explanation" := JString("The video discusses food and markets.")])])
  }

  /** The JSON value `translate_word` returns when translation fails. */
  function FallbackTranslationJson(text: string): (r: Json)
    ensures r.JObject? && r.fields.Keys == {"translation", "pronunciation", "definition", "example"}
    ensures r.fields["translation"] == JString(text)
    ensures r.fields["pronunciation"] == r.fields["definition"] == r.fields["example"] == JString("")
  {
    JObject(map[
      "translation" := JString(text),
      "pronunciation" := JString(""),
      "definition" := JString(""),
      "example" := JString("")])
  }

  /** The shared tail of both service functions: clean and parse the reply, or fall back. */
  function ParseReply(reply: Option<string>, parseJson: string -> Option<Json>, fallback: Json): (r: Json)
    ensures reply.Some? && parseJson(StripFences(reply.value)).Some? ==> r == parseJson(StripFences(reply.value)).value
    ensures reply.None? || parseJson(StripFences(reply.value)).None? ==> r == fallback
  {
    match reply
    case None => fallback
    case Some(content) => parseJson(StripFences(content)).GetOr(fallback)
  }

  /** `generate_quiz(transcript, language)`: never raises; on failure it yields the fallback quiz. */
  function GenerateQuiz(transcript: string, language: string, oracle: Oracle): (r: Json)
    ensures var reply := oracle.quizReply(transcript, language);
      reply.Some? && oracle.parseJson(StripFences(reply.value)).Some? ==> r == oracle.parseJson(StripFences(reply.value)).value
    ensures var reply := oracle.quizReply(transcript, language);
      reply.None? || oracle.parseJson(StripFences(reply.value)).None? ==> r == FallbackQuizJson()
  {
    ParseReply(oracle.quizReply(transcript, language), oracle.parseJson, FallbackQuizJson())
  }

  /** `translate_word(text, from_lang, to_lang)`: never raises; on failure it yields the fallback translation. */
  function TranslateWord(text: string, fromLang: string, toLang: string, oracle: Oracle): (r: Json)
    ensures var reply := oracle.translationReply(text, fromLang, toLang);
      reply.Some? && oracle.parseJson(StripFences(reply.value)).Some? ==> r == oracle.parseJson(StripFences(reply.value)).value
    ensures var reply := oracle.translationReply(text, fromLang, toLang);
      reply.None? || oracle.parseJson(StripFences(reply.value)).None? ==> r == FallbackTranslationJson(text)
  {
    ParseReply(oracle.translationReply(text, fromLang, toLang), oracle.parseJson, FallbackTranslationJson(text))
  }

  /** A failed quiz generation still gives a valid, non-empty list of questions. */
  lemma GenerateQuizFailure(transcript: string, language: string, oracle: Oracle)
    requires oracle.quizReply(transcript, language).None?
      || oracle.parseJson(StripFences(oracle.quizReply(transcript, language).value)).None?
    ensures DecodeQuestions(GenerateQuiz(transcript, language, oracle)) == Some([FallbackQuestion])
  {
  }

  /** A failed translation gives the input text back as its translation and "" elsewhere. */
  lemma TranslateWordFailure(text: string, fromLang: string, toLang: string, oracle: Oracle)
    requires oracle.translationReply(text, fromLang, toLang).None?
      || oracle.parseJson(StripFences(oracle.translationReply(text, fromLang, toLang).value)).None?
    ensures var r := TranslateWord(text, fromLang, toLang, oracle);
      r.JObject? && r.fields.Keys == {"translation", "pronunciation", "definition", "example"}
      && r.fields["translation"] == JString(text)
      && r.fields["pronunciation"] == r.fields["definition"] == r.fields["example"] == JString("")
  {
  }

  /** Both service functions parse the same cleaned text and hand back the parsed value unchanged. */
  lemma ParsedReplyUnchanged(text: string, fromLang: string, toLang: string, transcript: string, language: string, oracle: Oracle, content: string, j: Json)
    requires oracle.quizReply(transcript, language) == Some(content)
    requires oracle.translationReply(text, fromLang, toLang) == Some(content)
    requires oracle.parseJson(StripFences(content)) == Some(j)
    ensures GenerateQuiz(transcript, language, oracle) == j
    ensures TranslateWord(text, fromLang, toLang, oracle) == j
  {
  }

  /** Stripping cannot remove an opening "```". */
  lemma StripKeepsFence(s: string)
    requires StartsWith(s, Fence)
    ensures StartsWith(Strip(s), Fence)
  {
    assert LeadingWhitespace(s) == 0;
    assert TrimStart(s) == s;
    var n := TrailingWhitespace(s);
    assert !IsWhitespace(s[2]);
    assert |s| - n >= 3;
    assert Strip(s)[..3] == s[..3];
  }

  /** A reply fenced as "```json" ... "```" parses to the same value as the bare reply. */
  lemma FencedReplyParsesAsBare(s: string, parseJson: string -> Option<Json>, fallback: Json)
    requires !StartsWith(Strip(s), Fence) && !EndsWith(Strip(s), Fence)
    ensures ParseReply(Some(JsonFence + s + Fence), parseJson, fallback) == ParseReply(Some(s), parseJson, fallback)
  {
    if StartsWith(s, Fence) {
      StripKeepsFence(s);
    }
    StripFencesWrapped(s);
    StripFencesUnfenced(s);
  }
}
