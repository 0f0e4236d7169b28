/**
 * The request handlers of main.py. The handlers that only read are functions
 * of the catalog file; the two that may write a quiz back are methods of
 * Backend, which holds the catalog file, and are specified by the functions
 * GetQuizOutcome and CreateQuizOutcome.
 */
module Api {
  import opened Wrappers
  import opened Models
  import opened VideoService
  import opened OpenAiService

  /** What the exception behind a 500 response was. */
  datatype Cause =
    | Http(status: int, detail: string)  // an HTTPException caught by a catch-all handler
    | InvalidQuestions                   // Quiz(...) rejected the generated questions
    | NotADict                           // the translation result has no `.get`
    | InvalidTranslation                 // TranslateResponse(...) rejected a field

  /** A handler's outcome: the response body, a 404 with its detail, or a 500. */
  datatype Response<T> = Ok(value: T) | NotFound(detail: string) | ServerError(context: string, cause: Cause)

  const VideoNotFound: string := "Video not found"
  const TranscriptNotFound: string := "Video transcript not found"
  const QuizError: string := "Error generating quiz"
  const TranslateError: string := "Error translating"

  /** `GET /api/videos`. */
  function ListVideos(file: CatalogFile): (r: seq<Video>)
    ensures file.Readable? ==> r == file.videos
    ensures file.Unreadable? ==> r == []
  {
    GetAllVideos(file)
  }

  /** `GET /api/videos/{video_id}`: the video, or 404 when no video has that id. */
  function GetVideo(file: CatalogFile, videoId: string): (r: Response<Video>)
    ensures r.Ok? || r == NotFound(VideoNotFound)
    ensures r.Ok? ==> r.value.id == videoId && r.value in LoadVideos(file)
    ensures r.Ok? ==> Some(r.value) == GetVideoById(file, videoId)
    ensures r.NotFound? <==> forall v :: v in LoadVideos(file) ==> v.id != videoId
  {
    match GetVideoById(file, videoId)
    case None => NotFound(VideoNotFound)
    case Some(video) => Ok(video)
  }

  /**
   * The body of `GET /api/videos/{video_id}/quiz` as a function of the catalog
   * file before the request: the response and the file afterwards.
   */
  function GetQuizOutcome(file: CatalogFile, videoId: string, oracle: Oracle, writeOk: bool): (r: (Response<Quiz>, CatalogFile))
    ensures r.1 != file ==> r.0.Ok? && GetVideoQuiz(file, videoId).None?
    ensures r.0.NotFound? ==> r.0.detail == VideoNotFound || r.0.detail == TranscriptNotFound
    ensures r.0.ServerError? ==> r.0 == ServerError(QuizError, InvalidQuestions)
    ensures r.0.Ok? && GetVideoQuiz(file, videoId).None? ==> r.0.value.videoId == videoId
  {
    match GetVideoQuiz(file, videoId)
    case Some(existing) => (Ok(existing), file)
    case None =>
      match GetVideoById(file, videoId)
      case None => (NotFound(VideoNotFound), file)
      case Some(video) =>
        var transcript := GetVideoTranscript(file, videoId);
        if transcript == "" then (NotFound(TranscriptNotFound), file)
        else
          match DecodeQuestions(GenerateQuiz(transcript, video.language, oracle))
          case None => (ServerError(QuizError, InvalidQuestions), file)
          case Some(questions) =>
            var quiz := Quiz(videoId, questions);
            (Ok(quiz), SaveQuizToVideo(file, videoId, quiz, writeOk).file)
  }

  /**
   * The body of `POST /api/quiz/generate`. Its catch-all handler also catches
   * the 404 raised for a missing transcript, so that case reaches the caller
   * as a 500.
   */
  function CreateQuizOutcome(file: CatalogFile, request: QuizGenerateRequest, oracle: Oracle, writeOk: bool): (r: (Response<Quiz>, CatalogFile))
    ensures !r.0.NotFound?
    ensures r.0.Ok? ==> r.0.value.videoId == request.videoId
    ensures r.1 != file ==> r.0.Ok?
  {
    var transcript := if request.transcript != "" then request.transcript else GetVideoTranscript(file, request.videoId);
    if transcript == "" then (ServerError(QuizError, Http(404, TranscriptNotFound)), file)
    else
      match DecodeQuestions(GenerateQuiz(transcript, request.language, oracle))
      case None => (ServerError(QuizError, InvalidQuestions), file)
      case Some(questions) =>
        var quiz := Quiz(request.videoId, questions);
        (Ok(quiz), SaveQuizToVideo(file, request.videoId, quiz, writeOk).file)
  }

  /** A quiz already stored for the video is returned unchanged, and nothing is generated or saved. */
  lemma GetQuizReturnsStored(file: CatalogFile, videoId: string, oracle: Oracle, writeOk: bool)
    requires GetVideoQuiz(file, videoId).Some?
    ensures GetQuizOutcome(file, videoId, oracle, writeOk) == (Ok(GetVideoQuiz(file, videoId).value), file)
  {
  }

  /** A video id absent from the catalog gives 404 "Video not found" from both `get_video` and `get_quiz`. */
  lemma AbsentVideoNotFound(file: CatalogFile, videoId: string, oracle: Oracle, writeOk: bool)
    requires forall v :: v in LoadVideos(file) ==> v.id != videoId
    ensures GetVideo(file, videoId) == NotFound(VideoNotFound)
    ensures GetQuizOutcome(file, videoId, oracle, writeOk) == (NotFound(VideoNotFound), file)
  {
  }

  /**
   * A video without a stored quiz whose subtitles are none, or a single one
   * with empty text, gives 404 "Video transcript not found".
   */
  lemma GetQuizWithoutTranscript(file: CatalogFile, videoId: string, oracle: Oracle, writeOk: bool)
    requires GetVideoQuiz(file, videoId).None? && GetVideoById(file, videoId).Some?
    requires var subtitles := GetVideoById(file, videoId).value.subtitles;
      |subtitles| == 0 || (|subtitles| == 1 && subtitles[0].textTarget == "")
    ensures GetQuizOutcome(file, videoId, oracle, writeOk) == (NotFound(TranscriptNotFound), file)
  {
    TranscriptEmpty(GetVideoById(file, videoId).value);
  }

  /**
   * Otherwise the quiz is generated from the video's transcript in the video's
   * language, tagged with the requested id, saved, and returned.
   */
  lemma GetQuizGenerates(file: CatalogFile, videoId: string, oracle: Oracle, writeOk: bool, questions: seq<QuizQuestion>)
    requires GetVideoQuiz(file, videoId).None? && GetVideoById(file, videoId).Some?
    requires var video := GetVideoById(file, videoId).value;
      Transcript(video) != ""
      && DecodeQuestions(GenerateQuiz(Transcript(video), video.language, oracle)) == Some(questions)
    ensures GetQuizOutcome(file, videoId, oracle, writeOk)
      == (Ok(Quiz(videoId, questions)), SaveQuizToVideo(file, videoId, Quiz(videoId, questions), writeOk).file)
  {
  }

  /**
   * Generator output that does not validate as questions makes `Quiz(...)`
   * raise, and the catch-all turns that into a 500; nothing is saved.
   */
  lemma GetQuizRejects(file: CatalogFile, videoId: string, oracle: Oracle, writeOk: bool)
    requires GetVideoQuiz(file, videoId).None? && GetVideoById(file, videoId).Some?
    requires var video := GetVideoById(file, videoId).value;
      Transcript(video) != "" && DecodeQuestions(GenerateQuiz(Transcript(video), video.language, oracle)).None?
    ensures GetQuizOutcome(file, videoId, oracle, writeOk) == (ServerError(QuizError, InvalidQuestions), file)
  {
  }

  /** When the model cannot be reached the generated quiz is the single fallback question. */
  lemma GetQuizFallback(file: CatalogFile, videoId: string, oracle: Oracle, writeOk: bool)
    requires GetVideoQuiz(file, videoId).None? && GetVideoById(file, videoId).Some?
    requires var video := GetVideoById(file, videoId).value;
      Transcript(video) != "" && oracle.quizReply(Transcript(video), video.language).None?
    ensures GetQuizOutcome(file, videoId, oracle, writeOk).0 == Ok(Quiz(videoId, [FallbackQuestion]))
  {
    var video := GetVideoById(file, videoId).value;
    GenerateQuizFailure(Transcript(video), video.language, oracle);
  }

  /** The response does not depend on whether saving the quiz succeeds. */
  lemma GetQuizIgnoresSaveOutcome(file: CatalogFile, videoId: string, oracle: Oracle)
    ensures GetQuizOutcome(file, videoId, oracle, true).0 == GetQuizOutcome(file, videoId, oracle, false).0
    ensures GetQuizOutcome(file, videoId, oracle, false).1 == file
  {
  }

  /**
   * After a quiz has been generated and saved, a second request returns that
   * quiz and changes nothing, whatever the model would now reply.
   */
  lemma GetQuizTwice(file: CatalogFile, videoId: string, oracle: Oracle, oracle2: Oracle, writeOk2: bool)
    requires GetQuizOutcome(file, videoId, oracle, true).0.Ok?
    ensures var first := GetQuizOutcome(file, videoId, oracle, true);
      GetQuizOutcome(first.1, videoId, oracle2, writeOk2) == first
  {
    var first := GetQuizOutcome(file, videoId, oracle, true);
    if GetVideoQuiz(file, videoId).None? {
      SaveThenGetQuiz(file, videoId, first.0.value, true, videoId);
    }
  }

  /** A quiz request never alters the record of any other video. */
  lemma GetQuizKeepsOtherVideos(file: CatalogFile, videoId: string, oracle: Oracle, writeOk: bool, other: string)
    requires other != videoId
    ensures GetVideoById(GetQuizOutcome(file, videoId, oracle, writeOk).1, other) == GetVideoById(file, other)
  {
    var r := GetQuizOutcome(file, videoId, oracle, writeOk);
    if r.1 != file {
      SaveThenGetQuiz(file, videoId, r.0.value, writeOk, other);
    }
  }

  /** A non-empty transcript in the request is used as is: the catalog does not affect the response. */
  lemma CreateQuizUsesRequestTranscript(file: CatalogFile, file2: CatalogFile, request: QuizGenerateRequest, oracle: Oracle, writeOk: bool)
    requires request.transcript != ""
    ensures CreateQuizOutcome(file, request, oracle, writeOk).0 == CreateQuizOutcome(file2, request, oracle, writeOk).0
  {
  }

  /**
   * A non-empty request transcript is sent for generation in the request's
   * language; questions that decode are returned under the request's video id
   * and saved to that video.
   */
  lemma CreateQuizGenerates(file: CatalogFile, request: QuizGenerateRequest, oracle: Oracle, writeOk: bool, questions: seq<QuizQuestion>)
    requires request.transcript != ""
    requires DecodeQuestions(GenerateQuiz(request.transcript, request.language, oracle)) == Some(questions)
    ensures CreateQuizOutcome(file, request, oracle, writeOk)
      == (Ok(Quiz(request.videoId, questions)), SaveQuizToVideo(file, request.videoId, Quiz(request.videoId, questions), writeOk).file)
  {
  }

  /** An empty transcript in the request is replaced by the video's transcript from the catalog. */
  lemma CreateQuizFromCatalog(file: CatalogFile, request: QuizGenerateRequest, oracle: Oracle, writeOk: bool)
    requires request.transcript == ""
    ensures CreateQuizOutcome(file, request, oracle, writeOk)
      == CreateQuizOutcome(file, request.(transcript := GetVideoTranscript(file, request.videoId)), oracle, writeOk)
  {
  }

  /**
   * With no transcript in the request and none in the catalog, the 404 raised
   * inside the handler reaches the caller as a 500 carrying it; an unknown
   * video is one such case.
   */
  lemma CreateQuizUnresolvable(file: CatalogFile, request: QuizGenerateRequest, oracle: Oracle, writeOk: bool)
    requires request.transcript == ""
    requires GetVideoById(file, request.videoId).None?
      || Transcript(GetVideoById(file, request.videoId).value) == ""
    ensures CreateQuizOutcome(file, request, oracle, writeOk)
      == (ServerError(QuizError, Http(404, TranscriptNotFound)), file)
  {
  }

  /**
   * Generator output that does not validate as questions makes `Quiz(...)`
   * raise, and the catch-all turns that into a 500; nothing is saved.
   */
  lemma CreateQuizRejects(file: CatalogFile, request: QuizGenerateRequest, oracle: Oracle, writeOk: bool)
    requires request.transcript != ""
    requires DecodeQuestions(GenerateQuiz(request.transcript, request.language, oracle)).None?
    ensures CreateQuizOutcome(file, request, oracle, writeOk) == (ServerError(QuizError, InvalidQuestions), file)
  {
  }

  /** Unlike `get_quiz`, `create_quiz` replaces a stored quiz: after a successful save the new one is read back. */
  lemma CreateQuizReplacesStored(file: CatalogFile, request: QuizGenerateRequest, oracle: Oracle)
    requires CreateQuizOutcome(file, request, oracle, true).0.Ok? && GetVideoById(file, request.videoId).Some?
    ensures var r := CreateQuizOutcome(file, request, oracle, true);
      GetVideoQuiz(r.1, request.videoId) == Some(r.0.value)
  {
    var r := CreateQuizOutcome(file, request, oracle, true);
    SaveThenGetQuiz(file, request.videoId, r.0.value, true, request.videoId);
  }

  /** `dict.get(key, default)`. */
  function Get(fields: map<string, Json>, key: string, default: Json): Json {
    if key in fields then fields[key] else default
  }

  /**
   * `POST /api/translate`: of the service's result only `translation` and
   * `pronunciation` reach the response, each "" when missing. TranslateResponse
   * accepts a string translation and a string or null pronunciation.
   */
  function Translate(request: TranslateRequest, oracle: Oracle): (r: Response<TranslateResponse>)
    ensures var result := TranslateWord(request.text, request.fromLang, request.toLang, oracle);
      r.Ok? <==> (result.JObject? && Get(result.fields, "translation", JString("")).JString?
                  && (Get(result.fields, "pronunciation", JString("")).JString?
                      || Get(result.fields, "pronunciation", JString("")).JNull?))
    ensures var result := TranslateWord(request.text, request.fromLang, request.toLang, oracle);
      r.Ok? ==> (r.value.translation == (if "translation" in result.fields then result.fields["translation"].s else "")
                 && r.value.pronunciation == (if "pronunciation" !in result.fields then Some("")
                                              else if result.fields["pronunciation"].JNull? then None
                                              else Some(result.fields["pronunciation"].s)))
    ensures r.ServerError? ==> r.context == TranslateError
    ensures !r.NotFound?
  {
    match TranslateWord(request.text, request.fromLang, request.toLang, oracle)
    case JObject(fields) =>
      var translation := Get(fields, "translation", JString(""));
      var pronunciation := Get(fields, "pronunciation", JString(""));
      if translation.JString? && (pronunciation.JString? || pronunciation.JNull?) then
        Ok(TranslateResponse(translation.s, if pronunciation.JString? then Some(pronunciation.s) else None))
      else ServerError(TranslateError, InvalidTranslation)
    case _ => ServerError(TranslateError, NotADict)
  }

  /** When translation fails the response echoes the input text with an empty pronunciation. */
  lemma TranslateFallback(request: TranslateRequest, oracle: Oracle)
    requires oracle.translationReply(request.text, request.fromLang, request.toLang).None?
      || oracle.parseJson(StripFences(oracle.translationReply(request.text, request.fromLang, request.toLang).value)).None?
    ensures Translate(request, oracle) == Ok(TranslateResponse(request.text, Some("")))
  {
    TranslateWordFailure(request.text, request.fromLang, request.toLang, oracle);
  }

  /** The API's state: the catalog file that every request reads and that quiz generation writes. */
  class Backend {
    var catalog: CatalogFile

    constructor(file: CatalogFile)
      ensures catalog == file
    {
      catalog := file;
    }

    /** `GET /api/videos/{video_id}/quiz`: the stored quiz, or a new one generated and saved. */
    method GetQuiz(videoId: string, oracle: Oracle, writeOk: bool) returns (r: Response<Quiz>)
      modifies this
      ensures (r, catalog) == GetQuizOutcome(old(catalog), videoId, oracle, writeOk)
    {
      var existing := GetVideoQuiz(catalog, videoId);
      if existing.Some? {
        return Ok(existing.value);
      }
      var video := GetVideoById(catalog, videoId);
      if video.None? {
        return NotFound(VideoNotFound);
      }
      var transcript := GetVideoTranscript(catalog, videoId);
      if transcript == "" {
        return NotFound(TranscriptNotFound);
      }
      var questions := DecodeQuestions(GenerateQuiz(transcript, video.value.language, oracle));
      if questions.None? {
        return ServerError(QuizError, InvalidQuestions);
      }
      var quiz := Quiz(videoId, questions.value);
      var saved := SaveQuizToVideo(catalog, videoId, quiz, writeOk);
      catalog := saved.file;
      r := Ok(quiz);
    }

    /** `POST /api/quiz/generate`: generate from the given or the stored transcript, save, return. */
    method CreateQuiz(request: QuizGenerateRequest, oracle: Oracle, writeOk: bool) returns (r: Response<Quiz>)
      modifies this
      ensures (r, catalog) == CreateQuizOutcome(old(catalog), request, oracle, writeOk)
    {
      var transcript := request.transcript;
      if transcript == "" {
        transcript := GetVideoTranscript(catalog, request.videoId);
      }
      if transcript == "" {
        return ServerError(QuizError, Http(404, TranscriptNotFound));
      }
      var questions := DecodeQuestions(GenerateQuiz(transcript, request.language, oracle));
      if questions.None? {
        return ServerError(QuizError, InvalidQuestions);
      }
      var quiz := Quiz(request.videoId, questions.value);
      var saved := SaveQuizToVideo(catalog, request.videoId, quiz, writeOk);
      catalog := saved.file;
      r := Ok(quiz);
    }
  }
}
