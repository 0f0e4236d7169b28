# LearnFlow backend: catalog, quiz generation and translation, in Dafny

This project models the core of the LearnFlow backend, a small HTTP service
for a language-learning application. The service keeps a catalog of videos
with their subtitles in one JSON file. It generates a multiple-choice quiz
for a video from the video's transcript by asking a remote language model,
and stores that quiz with the video. It also translates words through the
same remote model.

The model has three parts.

- **Catalog store** (`video_service.dfy`, module `VideoService`). The file is
  `Readable(videos)` or `Unreadable`, and loading an unreadable file gives no
  videos. Lookup by id is a first-match scan. The transcript is the subtitles'
  target-language texts joined by single spaces. The two catalog operations
  that `main.py` imports but `services/video_service.py` does not define
  (`get_video_quiz`, `save_quiz_to_video`) are modelled as **assumptions**:
  they read, or set, the quiz of the first video with the id.
- **Text-generation client** (`openai_service.dfy`, module `OpenAiService`;
  `text.dfy`, module `Text`). The remote reply is an optional string: it is
  absent when the call fails. The JSON parser is a partial function passed in
  by the caller. The fence stripping shared by `generate_quiz` and
  `translate_word` is one function, `StripFences`, built on a model of
  Python's `str.strip()` that uses the characters Python counts as
  whitespace. On failure each service function returns its hard-coded
  fallback value.
- **Request handlers** (`api.dfy`, module `Api`). `GET /api/videos` and
  `GET /api/videos/{id}` are functions of the catalog file.
  `POST /api/translate` never touches the catalog: it is a function of the
  request and of the remote reply and parser. The two handlers that write a quiz back are methods of the
  class `Backend`, which holds the catalog file. Each method is specified by
  a function of the old file that gives the response and the new file
  (`GetQuizOutcome`, `CreateQuizOutcome`). The lemmas about those functions
  state the caching, the 404/500 mapping and the save-then-read-back
  behaviour.

`models.dfy` (module `Models`) turns the record classes into datatypes. It
also models the validation of generated questions, which the `Quiz(...)`
constructor performs, as a strict decoder from JSON values. `wrappers.dfy`
holds `Option`.

Two behaviours of the code worth noting:

- A missing transcript in `POST /api/quiz/generate` gives 500, not 404. The
  catch-all `except Exception` also catches the `HTTPException` raised inside
  the `try`. The model returns `ServerError(QuizError, Http(404, "Video transcript not found"))`.
- A successful parse is returned whatever its shape, so the caller does not
  always get a non-empty list of questions. An empty JSON list gives a quiz
  with no questions. A JSON value that is not a list of valid questions makes
  `Quiz(...)` fail, and the handler answers 500.

## Model

| member | source | states |
|---|---|---|
| `Models.DecodeQuestion` | models.py:34-38 | A question validates exactly when it is an object with a string `question`, a list of strings `options`, an integer `correct_answer` and a string `explanation`; the decoded fields are those values |
| `Models.DecodeQuestions` | models.py:34-43 | Validation of `questions` succeeds only on a JSON list, with one question per element; it succeeds whenever every element is a valid question object |
| `Models.DecodeEncodeQuestions` | models.py:34-43 | Every list of questions written out as JSON validates back to the same list |
| `Text.Strip` | services/openai_service.py:51 | `strip()` never lengthens its input and leaves no whitespace at either end |
| `Text.StripSlice` | services/openai_service.py:51 | `strip()` returns a contiguous piece of its input with no whitespace at either end, and everything it drops is whitespace |
| `Text.StripIdempotent` | services/openai_service.py:60 | Stripping a stripped string changes nothing |
| `Text.LeadingWhitespace` | services/openai_service.py:51 | The count of leading characters `strip()` removes: all whitespace, followed by a non-whitespace character or the end |
| `Text.TrailingWhitespace` | services/openai_service.py:51 | The count of trailing characters `strip()` removes: all whitespace, preceded by a non-whitespace character or the start |
| `OpenAiService.DropPrefix` | services/openai_service.py:54-57 | `startswith`/slice: a present prefix is cut off, otherwise the text is unchanged; the result is a suffix of the input |
| `OpenAiService.DropSuffix` | services/openai_service.py:58-59 | `endswith`/slice: a present suffix is cut off, otherwise the text is unchanged; the result is a prefix of the input |
| `OpenAiService.StripFences` | services/openai_service.py:51-60 | The cleaned reply is never longer than the raw reply and has no whitespace at either end |
| `OpenAiService.StripFencesSlice` | services/openai_service.py:51-60 | The cleaned reply is a contiguous substring of the raw reply, so it is never longer |
| `OpenAiService.StripFencesUnfenced` | services/openai_service.py:51-60 | If the stripped reply neither starts nor ends with "```", cleaning only strips it |
| `OpenAiService.StripFencesWrapped` | services/openai_service.py:51-60 | "```json" + s + "```" cleans to strip(s) whenever s does not begin with "```" |
| `OpenAiService.StripFencesBothPrefixes` | services/openai_service.py:54-57 | "```json" is tested before "```", so "```json```x" loses both prefixes and cleans to "x" |
| `OpenAiService.StripFencesOneSuffix` | services/openai_service.py:58-59 | At most one trailing "```" is removed: "a``````" cleans to "a```" |
| `OpenAiService.StripKeepsFence` | services/openai_service.py:51 | Stripping never removes a leading "```" |
| `OpenAiService.FallbackQuizJson` | services/openai_service.py:68-75 | The quiz fallback validates to one question with 4 options and `correct_answer` 0, which is in bounds |
| `OpenAiService.FallbackTranslationJson` | services/openai_service.py:126-131 | The translation fallback is an object with exactly the four keys, `translation` equal to the input text and the other three "" |
| `OpenAiService.ParseReply` | services/openai_service.py:51-63 | A reply that parses after cleaning yields the parsed value unchanged; a missing or unparsable reply yields the fallback |
| `OpenAiService.GenerateQuiz` | services/openai_service.py:11-75 | A reply that parses after cleaning is returned as parsed; a missing or unparsable reply gives the fallback quiz |
| `OpenAiService.TranslateWord` | services/openai_service.py:78-131 | A reply that parses after cleaning is returned as parsed; a missing or unparsable reply gives the fallback translation of the input text |
| `OpenAiService.GenerateQuizFailure` | services/openai_service.py:65-75 | When generation fails the result still validates to the single fallback question |
| `OpenAiService.TranslateWordFailure` | services/openai_service.py:124-131 | When translation fails the result has exactly the four keys, `translation` equal to the input text and the other three "" |
| `OpenAiService.ParsedReplyUnchanged` | services/openai_service.py:110-122 | `generate_quiz` and `translate_word` clean the same reply identically and both return the parsed value unchanged |
| `OpenAiService.FencedReplyParsesAsBare` | services/openai_service.py:53-62 | A reply fenced as "```json" ... "```" gives the same result as the bare reply |
| `VideoService.LoadVideos` | services/video_service.py:6-14 | Loading gives the file's records, or none when the file cannot be read |
| `VideoService.GetAllVideos` | services/video_service.py:17-19 | `get_all_videos` returns exactly what `load_videos` returns |
| `VideoService.FindVideo` | services/video_service.py:25-28 | A found video has the requested id and is in the list; nothing is found exactly when no video has that id |
| `VideoService.FindVideoFirst` | services/video_service.py:25-27 | With duplicate ids the earliest matching video is returned |
| `VideoService.FindVideoIndex` | services/video_service.py:25-27 | A found video sits at an index with no earlier video of that id |
| `VideoService.GetVideoById` | services/video_service.py:22-28 | `get_video_by_id` returns `Some(v)` only with `v.id == video_id` and a loaded `v`; `None` exactly when no loaded video has the id |
| `VideoService.JoinWithSpace` | services/video_service.py:37-38 | The joined length is 0 for no parts, else the sum of the part lengths plus one less than the number of parts |
| `VideoService.JoinWithSpaceEnds` | services/video_service.py:37-38 | The joined string starts with the first part, ends with the last, and has a space right after the first part when there are several |
| `VideoService.JoinWithSpaceAppend` | services/video_service.py:37-38 | Joining two non-empty lists is joining their joins with one more space |
| `VideoService.TextTargets` | services/video_service.py:37 | The parts are the subtitles' `text_target` values, one per subtitle, in order |
| `VideoService.GetVideoTranscript` | services/video_service.py:31-38 | The transcript is "" when the video is absent, otherwise the joined subtitle texts |
| `VideoService.Transcript` | services/video_service.py:37-38 | A transcript's length is 0 for zero subtitles, else the text lengths plus the separators |
| `VideoService.TranscriptEnds` | services/video_service.py:37-38 | A transcript starts with the first subtitle's text and ends with the last one's |
| `VideoService.TranscriptEmpty` | services/video_service.py:37-38 | A transcript is "" exactly when there are no subtitles or one subtitle with empty text; two or more subtitles always give a non-empty transcript |
| `VideoService.JoinWithSpaceExamples` | services/video_service.py:37-38 | ["Hola", "mundo"] joins to "Hola mundo" and ["", ""] to " " |
| `VideoService.UnreadableCatalog` | services/video_service.py:8-14 | With an unreadable file every lookup gives [], None or "" |
| `VideoService.GetVideoQuiz` | main.py:62-63 | ASSUMED `get_video_quiz`: absent when the video is absent, otherwise the video's stored quiz |
| `VideoService.SetQuiz` | main.py:80 | ASSUMED record update: the list keeps its length and every id |
| `VideoService.SetQuizChangesOneRecord` | main.py:80 | ASSUMED: only the first video with the id changes, and only its quiz field |
| `VideoService.SetQuizAbsent` | main.py:107 | ASSUMED: without a video of that id the records are unchanged |
| `VideoService.SetQuizThenFind` | main.py:80 | ASSUMED: after the update the lookup by that id finds the same video carrying the new quiz |
| `VideoService.SetQuizKeepsOthers` | main.py:80 | ASSUMED: the lookup of every other id is unchanged by the update |
| `VideoService.SaveQuizToVideo` | main.py:80 | ASSUMED `save_quiz_to_video`: succeeds exactly when the file is readable, holds the video and is rewritten; on failure the file is unchanged |
| `VideoService.SaveThenGetQuiz` | main.py:80 | ASSUMED: after a successful save `get_video_quiz` reads the quiz back, and every other video reads as before |
| `Api.ListVideos` | main.py:41-45 | The listing is the file's records, or none when it cannot be read |
| `Api.GetVideo` | main.py:48-54 | 404 "Video not found" exactly when no loaded video has the id; otherwise the video `get_video_by_id` finds, the first with that id |
| `Api.GetQuizOutcome` | main.py:57-87 | Only a generated quiz changes the file; 404s carry one of the two details; any 500 is a rejected generated quiz; a generated quiz has the requested `video_id` |
| `Api.CreateQuizOutcome` | main.py:90-112 | Never answers 404; a returned quiz has `request.video_id`; only a generated quiz changes the file |
| `Api.Translate` | main.py:116-126 | Succeeds exactly when the result is a dict with a string translation and a string or null pronunciation; the response holds those two fields, each "" when missing |
| `Api.Backend.GetQuiz` | main.py:57-87 | The response and the new catalog file are those of `GetQuizOutcome` on the old file |
| `Api.Backend.CreateQuiz` | main.py:90-112 | The response and the new catalog file are those of `CreateQuizOutcome` on the old file |
| `Api.GetQuizReturnsStored` | main.py:62-64 | A stored quiz is returned unchanged, with no generation and no save |
| `Api.AbsentVideoNotFound` | main.py:67-69 | An unknown video gives 404 "Video not found" from both `get_video` and `get_quiz` |
| `Api.GetQuizWithoutTranscript` | main.py:71-73 | A video with no stored quiz and no transcript text gives 404 "Video transcript not found" |
| `Api.GetQuizGenerates` | main.py:76-82 | Otherwise the quiz is the generator's output for the transcript in `video.language`, with `video_id` set, saved and returned |
| `Api.GetQuizRejects` | main.py:76-87 | Generator output that does not validate as questions gives a 500 and leaves the file unchanged |
| `Api.GetQuizFallback` | main.py:76-77 | When the model cannot be reached the returned quiz is the single fallback question |
| `Api.GetQuizIgnoresSaveOutcome` | main.py:80-82 | The response is the same whether or not the save succeeds; a failed save leaves the file as it was |
| `Api.GetQuizTwice` | main.py:62-82 | After a generated quiz is saved, a second request returns it and changes nothing, whatever the model now replies |
| `Api.GetQuizKeepsOtherVideos` | main.py:80 | A quiz request never alters the record of another video |
| `Api.CreateQuizUsesRequestTranscript` | main.py:95-96 | A non-empty request transcript is used as is, whatever the catalog holds |
| `Api.CreateQuizGenerates` | main.py:95-109 | A non-empty request transcript is sent for generation in `request.language`; decoded questions come back as a quiz with `request.video_id`, and the file is the outcome of saving that quiz |
| `Api.CreateQuizFromCatalog` | main.py:96-97 | An empty request transcript is replaced by the catalog's transcript for `request.video_id` |
| `Api.CreateQuizUnresolvable` | main.py:99-112 | With no transcript anywhere the caller gets a 500 carrying the inner 404, and the file is unchanged |
| `Api.CreateQuizRejects` | main.py:103-112 | Generator output for a non-empty request transcript that does not validate as questions gives a 500 and leaves the file unchanged |
| `Api.CreateQuizReplacesStored` | main.py:103-109 | `create_quiz` does not consult a stored quiz: after a successful save the new quiz is the one read back |
| `Api.TranslateFallback` | main.py:120-124 | When the model gives no reply or a reply that does not parse, the response is the input text with pronunciation "" |

## Left out

- The remote model call is left out: the client, the prompts, the model names, the temperatures, `max_tokens` and `num_questions`. Each request's reply is a function parameter returning an optional string, and its failures (network, API error, `None` content) are all the absent reply.
- `json.loads` is a partial function parameter. JSON numbers are modelled as integers only.
- `load_videos` does no file I/O in the model. The catalog file is its decoded content or `Unreadable`, which stands for every failure to open, parse or validate it.
- `get_video_quiz` and `save_quiz_to_video` are not defined in services/video_service.py, so `main.py` as written fails at import. Their model is an assumption: first match by id, and a failed save (unreadable file, unknown id, failed write) leaves the file unchanged. A partial write is not modelled. A rewrite may also reformat other records; the model says it does not.
- Pydantic's lax coercions (numeric strings to int, floats with zero fraction to int, and so on) are left out. Validation accepts exactly the declared JSON types and ignores extra keys. The `response_model` check on the way out is not modelled.
- `Subtitle.start` and `end` are floats in the source. They are `real` values here, never computed with.
- The text of `str(e)` in a 500 detail is not modelled. `ServerError` records the handler's prefix and the kind of exception instead.
- `print` logging, `load_dotenv` and the API key are left out.
- FastAPI setup, CORS, `os.makedirs`, the static mount, `read_root`, `health_check` and `uvicorn.run` are framework plumbing and are left out.
- Concurrent requests racing on the catalog file are left out. The source has no locking, and each handler runs here as one atomic step.
