/**
 * The records of the catalog (models.py) as plain values, and the JSON values
 * that the generation service's replies decode to.
 */
module Models {
  import opened Wrappers

  /** A subtitle timestamp in seconds. The source keeps it as a float; the model never computes with it. */
  type Seconds = real

  datatype Word = Word(
    word: string,
    translation: string,
    pronunciation: string,
    definition: Option<string>,
    example: Option<string>)

  datatype Subtitle = Subtitle(
    start: Seconds,
    end: Seconds,
    textTarget: string,
    textNative: string,
    words: seq<Word>)

  datatype QuizQuestion = QuizQuestion(
    question: string,
    options: seq<string>,
    correctAnswer: int,
    explanation: string)

  datatype Quiz = Quiz(videoId: string, questions: seq<QuizQuestion>)

  datatype Video = Video(
    id: string,
    title: string,
    url: string,
    thumbnail: Option<string>,
    language: string,
    difficulty: string,
    duration: int,
    description: Option<string>,
    subtitles: seq<Subtitle>,
    quiz: Option<Quiz>)

  datatype QuizGenerateRequest = QuizGenerateRequest(videoId: string, transcript: string, language: string)

  datatype TranslateRequest = TranslateRequest(text: string, fromLang: string, toLang: string)

  datatype TranslateResponse = TranslateResponse(translation: string, pronunciation: Option<string>)

  /**
   * A decoded JSON value, as Python's json module hands it back: objects are
   * dictionaries, arrays are lists. Numbers are integers only.
   */
  datatype Json =
    | JNull
    | JBool(b: bool)
    | JNumber(n: int)
    | JString(s: string)
    | JArray(items: seq<Json>)
    | JObject(fields: map<string, Json>)

  /** Validation of a list of strings (the `options` field). */
  function DecodeStrings(items: seq<Json>): (r: Option<seq<string>>)
    ensures r.Some? <==> forall i :: 0 <= i < |items| ==> items[i].JString?
    ensures r.Some? ==> |r.value| == |items| && forall i :: 0 <= i < |items| ==> r.value[i] == items[i].s
  {
    if items == [] then Some([])
    else if !items[0].JString? then None
    else
      match DecodeStrings(items[1..])
      case None => None
      case Some(rest) => Some([items[0].s] + rest)
  }

  function EncodeStrings(ss: seq<string>): (r: seq<Json>)
    ensures |r| == |ss| && forall i :: 0 <= i < |ss| ==> r[i] == JString(ss[i])
  {
    seq(|ss|, i requires 0 <= i < |ss| => JString(ss[i]))
  }

  /**
   * Validation of one question object into QuizQuestion: the four fields must be
   * present with the declared types; other keys are ignored.
   */
  function DecodeQuestion(j: Json): (r: Option<QuizQuestion>)
    ensures r.Some? <==> (
      && j.JObject?
      && "question" in j.fields && j.fields["question"].JString?
      && "options" in j.fields && j.fields["options"].JArray?
      && (forall i :: 0 <= i < |j.fields["options"].items| ==> j.fields["options"].items[i].JString?)
      && "correct_answer" in j.fields && j.fields["correct_answer"].JNumber?
      && "explanation" in j.fields && j.fields["explanation"].JString?)
    ensures r.Some? ==> (
      && j.fields["question"] == JString(r.value.question)
      && j.fields["options"] == JArray(EncodeStrings(r.value.options))
      && j.fields["correct_answer"] == JNumber(r.value.correctAnswer)
      && j.fields["explanation"] == JString(r.value.explanation))
  {
    match j
    case JObject(f) =>
      if "question" in f && f["question"].JString?
         && "options" in f && f["options"].JArray?
         && "correct_answer" in f && f["correct_answer"].JNumber?
         && "explanation" in f && f["explanation"].JString?
      then
        match DecodeStrings(f["options"].items)
        case None => None
        case Some(opts) => Some(QuizQuestion(f["question"].s, opts, f["correct_answer"].n, f["explanation"].s))
      else None
    case _ => None
  }

  function EncodeQuestion(q: QuizQuestion): Json {
    JObject(map[
      "question" := JString(q.question),
      "options" := JArray(EncodeStrings(q.options)),
      "correct_answer" := JNumber(q.correctAnswer),
      "explanation" := JString(q.explanation)])
  }

  /** Validation of the `questions` field of Quiz: a list whose every element is a valid question. */
  function DecodeQuestions(j: Json): (r: Option<seq<QuizQuestion>>)
    ensures r.Some? ==> j.JArray? && |r.value| == |j.items|
    ensures r.Some? ==> forall i :: 0 <= i < |j.items| ==> DecodeQuestion(j.items[i]) == Some(r.value[i])
    ensures j.JArray? && (forall i :: 0 <= i < |j.items| ==> DecodeQuestion(j.items[i]).Some?) ==> r.Some?
  {
    match j
    case JArray(items) => DecodeQuestionList(items)
    case _ => None
  }

  function DecodeQuestionList(items: seq<Json>): (r: Option<seq<QuizQuestion>>)
    ensures r.Some? ==> |r.value| == |items| && forall i :: 0 <= i < |items| ==> DecodeQuestion(items[i]) == Some(r.value[i])
    ensures (forall i :: 0 <= i < |items| ==> DecodeQuestion(items[i]).Some?) ==> r.Some?
  {
    if items == [] then Some([])
    else
      match (DecodeQuestion(items[0]), DecodeQuestionList(items[1..]))
      case (Some(q), Some(rest)) => Some([q] + rest)
      case _ => None
  }

  function EncodeQuestions(qs: seq<QuizQuestion>): Json {
    JArray(seq(|qs|, i requires 0 <= i < |qs| => EncodeQuestion(qs[i])))
  }

  /** Every list of questions survives being written out as JSON and validated again. */
  lemma DecodeEncodeQuestions(qs: seq<QuizQuestion>)
    ensures DecodeQuestions(EncodeQuestions(qs)) == Some(qs)
  {
    var items := EncodeQuestions(qs).items;
    forall i | 0 <= i < |items|
      ensures DecodeQuestion(items[i]) == Some(qs[i])
    {
      DecodeEncodeQuestion(qs[i]);
    }
    var r := DecodeQuestions(EncodeQuestions(qs));
    assert r.Some?;
    assert forall i :: 0 <= i < |qs| ==> r.value[i] == qs[i];
    assert r.value == qs;
  }

  lemma DecodeEncodeQuestion(q: QuizQuestion)
    ensures DecodeQuestion(EncodeQuestion(q)) == Some(q)
  {
    var r := DecodeStrings(EncodeStrings(q.options));
    assert r.Some?;
    assert forall i :: 0 <= i < |q.options| ==> r.value[i] == q.options[i];
    assert r.value == q.options;
  }
}
