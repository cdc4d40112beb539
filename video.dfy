// The video context's domain functions: the quick URL check and the
// string-splitting id extraction of its events, and the download handler that
// names the downloaded file. Generating a new id is the caller's part.

module VideoDomain {
  import opened Strings
  import opened Errors

  datatype VideoUrlValidated = VideoUrlValidated(url: string, videoId: Id)
  datatype DownloadVideoCommand = DownloadVideoCommand(videoId: Id)
  datatype VideoDownloaded = VideoDownloaded(videoId: Id, path: string, durationSec: nat)

  /** `is_valid_youtube_url`: one of two https prefixes. */
  predicate IsValidYoutubeUrl(url: string)
  {
    StartsWith(url, "https://www.youtube.com/") || StartsWith(url, "https://youtu.be/")
  }

  /** `validate_video_url`: empty, then the prefix test; the event carries the
      URL and the freshly generated id `newId`. */
  function ValidateVideoUrl(url: string, newId: Id): (r: Result<VideoUrlValidated>)
    ensures r.Ok? <==> IsValidYoutubeUrl(url)
    ensures r.Ok? ==> r.value == VideoUrlValidated(url, newId)
    ensures url == "" ==> r == Err(InvalidUrl("URL is empty"))
    ensures url != "" && r.Err? ==> r == Err(InvalidUrl(url))
  {
    if url == "" then Err(InvalidUrl("URL is empty"))
    else if !IsValidYoutubeUrl(url) then Err(InvalidUrl(url))
    else Ok(VideoUrlValidated(url, newId))
  }

  /** The text after the first `sep` of `url`. */
  function After(url: string, sep: string): (rest: string)
    requires Contains(url, sep)
    ensures |rest| <= |url|
  {
    url[Find(url, sep).value + |sep|..]
  }

  /** `id` is the start of `rest` up to the first `c` or `sep`, or the end. */
  predicate LeadingPiece(rest: string, id: string, c: char, sep: string)
  {
    |id| <= |rest| && rest[..|id|] == id &&
    (|id| == |rest| || rest[|id|] == c || OccursAt(rest, sep, |id|))
  }

  /** `extract_video_id`: after the first "v=" up to the next '&' or "v=",
      else after the first "youtu.be/" up to the next '?' or "youtu.be/",
      else nothing. The id never holds its own separators. */
  function ExtractVideoId(url: string): (id: string)
    ensures Contains(url, "v=") ==>
      LeadingPiece(After(url, "v="), id, '&', "v=") && '&' !in id && !Contains(id, "v=")
    ensures !Contains(url, "v=") && Contains(url, "youtu.be/") ==>
      LeadingPiece(After(url, "youtu.be/"), id, '?', "youtu.be/") && '?' !in id && !Contains(id, "youtu.be/")
    ensures !Contains(url, "v=") && !Contains(url, "youtu.be/") ==> id == ""
  {
    if Contains(url, "v=") then
      var id := Split(SecondPiece(url, "v="), '&')[0];
      PieceShape(url, "v=", '&');
      id
    else if Contains(url, "youtu.be/") then
      var id := Split(SecondPiece(url, "youtu.be/"), '?')[0];
      PieceShape(url, "youtu.be/", '?');
      id
    else ""
  }

  /** The first `c`-separated part of the second `sep` piece is the leading
      piece of the text after `sep`, and holds neither `c` nor `sep`. */
  lemma PieceShape(url: string, sep: string, c: char)
    requires Contains(url, sep) && |sep| > 0
    ensures var id := Split(SecondPiece(url, sep), c)[0];
      LeadingPiece(After(url, sep), id, c, sep) && c !in id && !Contains(id, sep)
  {
    var piece := SecondPiece(url, sep);
    var id := Split(piece, c)[0];
    PieceAvoidsSep(url, sep);
    SplitFirstIsPrefix(piece, c);
    SplitFirstStops(piece, c);
    PrefixAvoids(piece, sep, |id|);
    var rest := After(url, sep);
    match Find(rest, sep)
    case Some(j) =>
      assert piece == rest[..j];
      assert rest[..|id|] == id;
      if |id| < |piece| {
        assert rest[|id|] == piece[|id|];
      }
    case None =>
      assert piece == rest;
  }

  /** The first part of a split ends at the first separator or at the end. */
  lemma SplitFirstStops(s: string, c: char)
    ensures |Split(s, c)[0]| == |s| || s[|Split(s, c)[0]|] == c
  {
  }

  /** The second piece holds no occurrence of its separator. */
  lemma PieceAvoidsSep(s: string, sep: string)
    requires Contains(s, sep) && |sep| > 0
    ensures !Contains(SecondPiece(s, sep), sep)
  {
    var i := Find(s, sep).value;
    var rest := s[i + |sep|..];
    match Find(rest, sep)
    case Some(j) =>
      assert SecondPiece(s, sep) == rest[..j];
      PrefixAvoids(rest, sep, j);
    case None =>
  }

  /** A prefix of a string free of `needle` before position n is free of it. */
  lemma PrefixAvoids(s: string, needle: string, n: nat)
    requires n <= |s| && |needle| > 0
    requires forall j :: 0 <= j < n ==> !OccursAt(s, needle, j)
    ensures !Contains(s[..n], needle)
  {
    if Contains(s[..n], needle) {
      var i :| 0 <= i <= n && OccursAt(s[..n], needle, i);
      assert s[..n][i..i + |needle|] == s[i..i + |needle|];
      assert OccursAt(s, needle, i);
      assert false;
    }
  }

  /** The first piece of a split is a prefix of the string. */
  lemma SplitFirstIsPrefix(s: string, c: char)
    ensures |Split(s, c)[0]| <= |s| && s[..|Split(s, c)[0]|] == Split(s, c)[0]
    ensures forall j :: 0 <= j < |Split(s, c)[0]| ==> s[j] == Split(s, c)[0][j]
  {
  }

  /** A string lacking one of the needle's characters does not contain it. */
  lemma MissingCharAvoids(s: string, needle: string, k: nat)
    requires k < |needle| && needle[k] !in s
    ensures !Contains(s, needle)
  {
  }

  /** When the separator's first character is absent before it, the separator
      is found right after the prefix, and the piece after it is the rest
      whenever the rest does not contain it. */
  lemma PieceAfterPrefix(prefix: string, sep: string, rest: string)
    requires |sep| > 0 && sep[0] !in prefix && !Contains(rest, sep)
    ensures Contains(prefix + sep + rest, sep)
    ensures SecondPiece(prefix + sep + rest, sep) == rest
  {
    var s := prefix + sep + rest;
    ContainsMiddle(prefix, sep, rest);
    var i := Find(s, sep).value;
    if i < |prefix| {
      assert false;
    }
    assert OccursAt(s, sep, |prefix|) by {
      assert s[|prefix|..|prefix| + |sep|] == sep;
    }
    assert i == |prefix|;
    assert s[i + |sep|..] == rest;
  }

  /** A watch URL "<prefix>v=<id>" gives back the id, for a prefix without
      'v' and an id without '=' or '&'. */
  lemma WatchUrlId(prefix: string, id: string)
    requires 'v' !in prefix && '=' !in id && '&' !in id
    ensures ExtractVideoId(prefix + "v=" + id) == id
  {
    MissingCharAvoids(id, "v=", 1);
    PieceAfterPrefix(prefix, "v=", id);
  }

  /** A short link "<prefix>youtu.be/<id>" gives back the id, when nothing in
      it contains '=', the prefix has no 'y' and the id no 'y' or '?'. */
  lemma ShortUrlId(prefix: string, id: string)
    requires '=' !in prefix && 'y' !in prefix && '=' !in id && 'y' !in id && '?' !in id
    ensures ExtractVideoId(prefix + "youtu.be/" + id) == id
  {
    var url := prefix + "youtu.be/" + id;
    assert '=' !in url by {
      assert forall k :: 0 <= k < |url| ==> url[k] == (if k < |prefix| then prefix[k]
        else if k < |prefix| + 9 then "youtu.be/"[k - |prefix|] else id[k - |prefix| - 9]);
    }
    MissingCharAvoids(url, "v=", 1);
    MissingCharAvoids(id, "youtu.be/", 0);
    PieceAfterPrefix(prefix, "youtu.be/", id);
  }

  /** The sample watch URL extracts its id. */
  lemma SampleWatchUrl()
    ensures ExtractVideoId("https://www.youtube.com/watch?" + "v=" + "dQw4w9WgXcQ") == "dQw4w9WgXcQ"
  {
    WatchUrlId("https://www.youtube.com/watch?", "dQw4w9WgXcQ");
  }

  /** "v=" takes precedence: a short link that also carries a "v" parameter
      yields the parameter, not the path. */
  lemma VParameterWins()
    ensures ExtractVideoId("https://youtu.be/abc?" + "v=" + "dQw4w9WgXcQ") == "dQw4w9WgXcQ"
  {
    WatchUrlId("https://youtu.be/abc?", "dQw4w9WgXcQ");
  }

  /** `handle_download_video`: an empty output directory is the only failure;
      otherwise the video lands in "<dir>/video.mp4". */
  function HandleDownloadVideo(cmd: DownloadVideoCommand, outputPath: string, durationSec: nat): (r: Result<VideoDownloaded>)
    ensures r.Err? <==> outputPath == ""
    ensures r.Err? ==> r.error == DownloadFailed(0, "Output path is empty")
    ensures r.Ok? ==> r.value.videoId == cmd.videoId && r.value.durationSec == durationSec
    ensures r.Ok? ==> StartsWith(r.value.path, outputPath) && r.value.path[|outputPath|..] == "/video.mp4"
  {
    if outputPath == "" then Err(DownloadFailed(0, "Output path is empty"))
    else Ok(VideoDownloaded(cmd.videoId, outputPath + "/video.mp4", durationSec))
  }

  /** The handler's own example: "/tmp" and 180 seconds. */
  lemma DownloadExample(cmd: DownloadVideoCommand)
    ensures HandleDownloadVideo(cmd, "/tmp", 180) == Ok(VideoDownloaded(cmd.videoId, "/tmp/video.mp4", 180))
  {
    assert "/tmp" + "/video.mp4" == "/tmp/video.mp4";
  }
}
