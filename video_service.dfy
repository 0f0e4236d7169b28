/**
 * The catalog store (services/video_service.py). Every call re-reads the
 * catalog file; the file is modelled by its decoded content, or by
 * `Unreadable` when opening, parsing or validating it fails.
 *
 * `get_video_quiz` and `save_quiz_to_video` are imported by main.py but are
 * not defined in services/video_service.py. GetVideoQuiz, SetQuiz and
 * SaveQuizToVideo below are ASSUMED behaviour, the least main.py relies on:
 * read, or set, the quiz of the first video with the given id.
 */
module VideoService {
  import opened Wrappers
  import opened Models

  /** data/videos.json as `load_videos` finds it. */
  datatype CatalogFile = Readable(videos: seq<Video>) | Unreadable

  /** `load_videos`: the records of the file, or none when it cannot be read. */
  function LoadVideos(file: CatalogFile): (r: seq<Video>)
    ensures file.Unreadable? ==> r == []
    ensures file.Readable? ==> r == file.videos
  {
    match file
    case Readable(videos) => videos
    case Unreadable => []
  }

  /** `get_all_videos`. */
  function GetAllVideos(file: CatalogFile): (r: seq<Video>)
    ensures r == LoadVideos(file)
  {
    LoadVideos(file)
  }

  /** The scan in `get_video_by_id`: the first video whose id matches, if any. */
  function FindVideo(videos: seq<Video>, id: string): (r: Option<Video>)
    ensures r.Some? ==> r.value.id == id && r.value in videos
    ensures r.None? <==> forall i :: 0 <= i < |videos| ==> videos[i].id != id
  {
    if videos == [] then None
    else if videos[0].id == id then Some(videos[0])
    else FindVideo(videos[1..], id)
  }

  /** With duplicate ids, the scan stops at the earliest one. */
  lemma {:induction false} FindVideoFirst(videos: seq<Video>, id: string, k: nat)
    requires k < |videos| && videos[k].id == id
    requires forall j :: 0 <= j < k ==> videos[j].id != id
    ensures FindVideo(videos, id) == Some(videos[k])
  {
    if k > 0 {
      FindVideoFirst(videos[1..], id, k - 1);
    }
  }

  /** A found video sits at the first index holding its id. */
  lemma {:induction false} FindVideoIndex(videos: seq<Video>, id: string) returns (k: nat)
    requires FindVideo(videos, id).Some?
    ensures k < |videos| && FindVideo(videos, id) == Some(videos[k])
    ensures forall j :: 0 <= j < k ==> videos[j].id != id
  {
    if videos[0].id == id {
      k := 0;
    } else {
      var k' := FindVideoIndex(videos[1..], id);
      k := k' + 1;
    }
  }

  /** `get_video_by_id`. */
  function GetVideoById(file: CatalogFile, id: string): (r: Option<Video>)
    ensures r.Some? ==> r.value.id == id && r.value in LoadVideos(file)
    ensures r.None? <==> forall v :: v in LoadVideos(file) ==> v.id != id
  {
    FindVideo(LoadVideos(file), id)
  }

  /** The sum of the lengths of `parts`. */
  function TotalLength(parts: seq<string>): nat {
    if parts == [] then 0 else |parts[0]| + TotalLength(parts[1..])
  }

  /** `" ".join(parts)`: every part, and one separator between each two. */
  function JoinWithSpace(parts: seq<string>): (r: string)
    ensures |r| == if parts == [] then 0 else TotalLength(parts) + |parts| - 1
  {
    if |parts| == 0 then ""
    else if |parts| == 1 then parts[0]
    else parts[0] + " " + JoinWithSpace(parts[1..])
  }

  /**
   * The joined string starts with the first part, ends with the last one, and
   * puts a space right after the first part when there is more than one.
   */
  lemma {:induction false} JoinWithSpaceEnds(parts: seq<string>)
    requires parts != []
    ensures var r := JoinWithSpace(parts); var last := parts[|parts| - 1];
      |parts[0]| <= |r| && r[..|parts[0]|] == parts[0]
      && |last| <= |r| && r[|r| - |last|..] == last
      && (|parts| > 1 ==> |parts[0]| < |r| && r[|parts[0]|] == ' ')
  {
    if |parts| > 1 {
      var rest := JoinWithSpace(parts[1..]);
      var last := parts[|parts| - 1];
      JoinWithSpaceEnds(parts[1..]);
      assert last == parts[1..][|parts[1..]| - 1];
      assert (parts[0] + " " + rest)[|parts[0]| + 1 + |rest| - |last|..] == rest[|rest| - |last|..];
    }
  }

  /** Joining two non-empty lists is joining their joins with one more space. */
  lemma {:induction false} JoinWithSpaceAppend(a: seq<string>, b: seq<string>)
    requires a != [] && b != []
    ensures JoinWithSpace(a + b) == JoinWithSpace(a) + " " + JoinWithSpace(b)
  {
    if |a| == 1 {
      assert (a + b)[1..] == b;
    } else {
      assert (a + b)[1..] == a[1..] + b;
      JoinWithSpaceAppend(a[1..], b);
    }
  }

  /** The `text_target` of every subtitle, in order. */
  function TextTargets(subtitles: seq<Subtitle>): (r: seq<string>)
    ensures |r| == |subtitles|
    ensures forall i :: 0 <= i < |subtitles| ==> r[i] == subtitles[i].textTarget
  {
    seq(|subtitles|, i requires 0 <= i < |subtitles| => subtitles[i].textTarget)
  }

  /** The transcript of a video: its subtitles' target-language texts joined by single spaces. */
  function Transcript(video: Video): (r: string)
    ensures |r| == if video.subtitles == [] then 0
      else TotalLength(TextTargets(video.subtitles)) + |video.subtitles| - 1
  {
    JoinWithSpace(TextTargets(video.subtitles))
  }

  /** `get_video_transcript`. */
  function GetVideoTranscript(file: CatalogFile, id: string): (r: string)
    ensures GetVideoById(file, id).None? ==> r == ""
    ensures GetVideoById(file, id).Some? ==> r == Transcript(GetVideoById(file, id).value)
  {
    match GetVideoById(file, id)
    case None => ""
    case Some(video) => Transcript(video)
  }

  /** A transcript starts with the first subtitle's text and ends with the last one's. */
  lemma TranscriptEnds(video: Video)
    requires video.subtitles != []
    ensures var r := Transcript(video); var first := video.subtitles[0].textTarget;
      var last := video.subtitles[|video.subtitles| - 1].textTarget;
      |first| <= |r| && r[..|first|] == first && |last| <= |r| && r[|r| - |last|..] == last
  {
    JoinWithSpaceEnds(TextTargets(video.subtitles));
  }

  /**
   * A transcript is empty exactly when there are no subtitles or a single one
   * with empty text; two subtitles always leave at least their separator.
   */
  lemma TranscriptEmpty(video: Video)
    ensures Transcript(video) == "" <==>
      |video.subtitles| == 0 || (|video.subtitles| == 1 && video.subtitles[0].textTarget == "")
  {
    var parts := TextTargets(video.subtitles);
    if |parts| == 1 {
      assert TotalLength(parts) == |parts[0]|;
    }
  }

  /** Two subtitles "Hola" and "mundo" give "Hola mundo"; two empty ones give " ". */
  lemma JoinWithSpaceExamples()
    ensures JoinWithSpace(["Hola", "mundo"]) == "Hola mundo"
    ensures JoinWithSpace(["", ""]) == " "
  {
    assert ["Hola", "mundo"][1..] == ["mundo"];
    assert ["", ""][1..] == [""];
  }

  /** When the file cannot be read every lookup comes back empty. */
  lemma UnreadableCatalog(id: string)
    ensures GetAllVideos(Unreadable) == []
    ensures GetVideoById(Unreadable, id) == None
    ensures GetVideoTranscript(Unreadable, id) == ""
    ensures GetVideoQuiz(Unreadable, id) == None
  {
  }

  /** ASSUMED `get_video_quiz`: the quiz stored with the video, if both exist. */
  function GetVideoQuiz(file: CatalogFile, id: string): (r: Option<Quiz>)
    ensures GetVideoById(file, id).None? ==> r.None?
    ensures GetVideoById(file, id).Some? ==> r == GetVideoById(file, id).value.quiz
  {
    match GetVideoById(file, id)
    case None => None
    case Some(video) => video.quiz
  }

  /** ASSUMED record update of `save_quiz_to_video`: attach `quiz` to the first video with that id. */
  function SetQuiz(videos: seq<Video>, id: string, quiz: Quiz): (r: seq<Video>)
    ensures |r| == |videos|
    ensures forall i :: 0 <= i < |videos| ==> r[i].id == videos[i].id
  {
    if videos == [] then []
    else if videos[0].id == id then [videos[0].(quiz := Some(quiz))] + videos[1..]
    else [videos[0]] + SetQuiz(videos[1..], id, quiz)
  }

  /** Only the first video with the id changes, and only in its quiz field. */
  lemma {:induction false} SetQuizChangesOneRecord(videos: seq<Video>, id: string, quiz: Quiz, k: nat)
    requires k < |videos| && videos[k].id == id
    requires forall j :: 0 <= j < k ==> videos[j].id != id
    ensures SetQuiz(videos, id, quiz)[k] == videos[k].(quiz := Some(quiz))
    ensures forall i :: 0 <= i < |videos| && i != k ==> SetQuiz(videos, id, quiz)[i] == videos[i]
  {
    if k > 0 {
      SetQuizChangesOneRecord(videos[1..], id, quiz, k - 1);
      var r := SetQuiz(videos, id, quiz);
      assert r == [videos[0]] + SetQuiz(videos[1..], id, quiz);
      forall i | 0 < i < |videos| && i != k
        ensures r[i] == videos[i]
      {
        assert r[i] == SetQuiz(videos[1..], id, quiz)[i - 1];
      }
    }
  }

  /** Without a video of that id there is nothing to update. */
  lemma {:induction false} SetQuizAbsent(videos: seq<Video>, id: string, quiz: Quiz)
    requires FindVideo(videos, id).None?
    ensures SetQuiz(videos, id, quiz) == videos
  {
    if videos != [] {
      SetQuizAbsent(videos[1..], id, quiz);
    }
  }

  /** After the update, the lookup by that id finds the same video carrying the new quiz. */
  lemma {:induction false} SetQuizThenFind(videos: seq<Video>, id: string, quiz: Quiz)
    requires FindVideo(videos, id).Some?
    ensures FindVideo(SetQuiz(videos, id, quiz), id) == Some(FindVideo(videos, id).value.(quiz := Some(quiz)))
  {
    if videos[0].id != id {
      SetQuizThenFind(videos[1..], id, quiz);
      assert SetQuiz(videos, id, quiz)[1..] == SetQuiz(videos[1..], id, quiz);
    }
  }

  /** The update leaves the lookup of every other id as it was. */
  lemma {:induction false} SetQuizKeepsOthers(videos: seq<Video>, id: string, quiz: Quiz, other: string)
    requires other != id
    ensures FindVideo(SetQuiz(videos, id, quiz), other) == FindVideo(videos, other)
  {
    if videos != [] && videos[0].id != other {
      var r := SetQuiz(videos, id, quiz);
      assert r[0].id == videos[0].id;
      if videos[0].id == id {
        assert r[1..] == videos[1..];
      } else {
        SetQuizKeepsOthers(videos[1..], id, quiz, other);
        assert r[1..] == SetQuiz(videos[1..], id, quiz);
      }
    }
  }

  /** The new file content and the success flag `save_quiz_to_video` returns. */
  datatype SaveResult = SaveResult(file: CatalogFile, saved: bool)

  /**
   * ASSUMED `save_quiz_to_video(video_id, quiz)`: re-read the file, attach the
   * quiz to the matching video, rewrite the file. `writeOk` is whether the
   * rewrite succeeds. Any failure returns false and leaves the file as it was.
   */
  function SaveQuizToVideo(file: CatalogFile, id: string, quiz: Quiz, writeOk: bool): (r: SaveResult)
    ensures r.saved <==> file.Readable? && GetVideoById(file, id).Some? && writeOk
    ensures !r.saved ==> r.file == file
    ensures r.saved ==> r.file == Readable(SetQuiz(file.videos, id, quiz))
  {
    match file
    case Unreadable => SaveResult(file, false)
    case Readable(videos) =>
      if FindVideo(videos, id).None? || !writeOk then SaveResult(file, false)
      else SaveResult(Readable(SetQuiz(videos, id, quiz)), true)
  }

  /** A saved quiz is what `get_video_quiz` reads back; every other video reads as before. */
  lemma SaveThenGetQuiz(file: CatalogFile, id: string, quiz: Quiz, writeOk: bool, other: string)
    requires SaveQuizToVideo(file, id, quiz, writeOk).saved
    ensures var after := SaveQuizToVideo(file, id, quiz, writeOk).file;
      GetVideoQuiz(after, id) == Some(quiz)
      && GetVideoById(after, id) == Some(GetVideoById(file, id).value.(quiz := Some(quiz)))
      && (other != id ==> GetVideoById(after, other) == GetVideoById(file, other))
  {
    SetQuizThenFind(file.videos, id, quiz);
    if other != id {
      SetQuizKeepsOthers(file.videos, id, quiz, other);
    }
  }
}
