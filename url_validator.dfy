// Validation of a YouTube URL and extraction of its video id. Parsing the
// URL text into host, path and decoded query pairs is the URL library's work
// and is supplied by the caller; so is the hash-based conversion of the id
// text into a typed id.

module UrlValidator {
  import opened Strings
  import opened Errors

  /** What the URL library makes of a URL: its host (if any), its path and
      its percent-decoded query pairs in order. */
  datatype ParsedUrl = ParsedUrl(host: Option<string>, path: string, query: seq<(string, string)>)

  datatype UrlParse = Parsed(url: ParsedUrl) | Unparsable(reason: string)

  /** `host_str().unwrap_or("")`. */
  function HostOf(u: ParsedUrl): string
  {
    if u.host.Some? then u.host.value else ""
  }

  /** `is_youtube_url`: one of the five accepted hosts. */
  predicate IsYoutubeUrl(u: ParsedUrl)
  {
    HostOf(u) in {"www.youtube.com", "youtube.com", "youtu.be", "m.youtube.com", "music.youtube.com"}
  }

  /** `trim_start_matches('/')`. */
  function TrimLeadingSlashes(p: string): (r: string)
    ensures |r| <= |p| && p[|p| - |r|..] == r
    ensures r == [] || r[0] != '/'
  {
    if p != [] && p[0] == '/' then TrimLeadingSlashes(p[1..]) else p
  }

  /** The value of the first query pair whose key is "v". */
  function FirstV(query: seq<(string, string)>): (r: Option<string>)
    ensures r.Some? <==> exists k :: 0 <= k < |query| && query[k].0 == "v"
    ensures r.Some? ==> exists k :: 0 <= k < |query| && query[k] == ("v", r.value) &&
                                    forall j :: 0 <= j < k ==> query[j].0 != "v"
  {
    if query == [] then None
    else if query[0].0 == "v" then Some(query[0].1)
    else
      var r := FirstV(query[1..]);
      assert forall k :: 0 <= k < |query[1..]| ==> query[1..][k] == query[k + 1];
      r
  }

  /** The non-empty pieces of a '/'-separated path, in order. */
  function NonEmptyPieces(pieces: seq<string>): (r: seq<string>)
    ensures forall k :: 0 <= k < |r| ==> r[k] != ""
    ensures |r| <= |pieces|
  {
    if pieces == [] then []
    else if pieces[0] == "" then NonEmptyPieces(pieces[1..])
    else [pieces[0]] + NonEmptyPieces(pieces[1..])
  }

  function Segments(path: string): seq<string>
  {
    NonEmptyPieces(Split(path, '/'))
  }

  /** `extract_video_id`: for youtu.be the path without its leading '/'s, cut
      at the first '?'; otherwise the first "v" query value, or else the second
      path segment after "embed", "shorts" or "v". */
  function ExtractVideoId(u: ParsedUrl): Result<string>
  {
    if HostOf(u) == "youtu.be" then
      var id := TrimLeadingSlashes(u.path);
      if id == "" then Err(InvalidUrl("No video ID found in URL"))
      else Ok(Split(id, '?')[0])
    else
      match FirstV(u.query)
      case Some(v) => Ok(v)
      case None =>
        var segments := Segments(u.path);
        if |segments| >= 2 && segments[0] in {"embed", "shorts", "v"} then Ok(segments[1])
        else Err(InvalidUrl("Could not extract video ID from URL"))
  }

  /** The characters of `[a-zA-Z0-9_-]`. */
  predicate IdChar(c: char)
  {
    ('a' <= c <= 'z') || ('A' <= c <= 'Z') || ('0' <= c <= '9') || c == '_' || c == '-'
  }

  /** `validate_video_id_format`: empty, then length, then the character class. */
  function ValidateVideoIdFormat(id: string): Result<()>
  {
    if id == "" then Err(InvalidUrl("Video ID is empty"))
    else if |id| < 10 || |id| > 12 then
      Err(InvalidUrl("Video ID has invalid length: " + NatToString(|id|) + " (expected 10-12 characters)"))
    else if exists i :: 0 <= i < |id| && !IdChar(id[i]) then
      Err(InvalidUrl("Video ID has invalid format: " + id))
    else Ok(())
  }

  predicate WellFormedId(id: string)
  {
    10 <= |id| <= 12 && forall i :: 0 <= i < |id| ==> IdChar(id[i])
  }

  /** An id passes exactly when it has 10 to 12 characters, all from the class;
      every rejection is an invalid-URL error. */
  lemma IdFormatIff(id: string)
    ensures ValidateVideoIdFormat(id).Ok? <==> WellFormedId(id)
    ensures ValidateVideoIdFormat(id).Err? ==> ValidateVideoIdFormat(id).error.InvalidUrl?
  {
  }

  /** `validate_and_extract`: the checks in order, returning the input text and
      the typed id `idOf` makes of the extracted text. */
  function ValidateAndExtract(urlText: string, parse: string -> UrlParse, idOf: string -> Id): (r: Result<(string, Id)>)
    ensures r.Err? ==> r.error.InvalidUrl?
  {
    if urlText == "" then Err(InvalidUrl("URL is empty"))
    else match parse(urlText)
      case Unparsable(why) => Err(InvalidUrl("Invalid URL format: " + why))
      case Parsed(u) =>
        if !IsYoutubeUrl(u) then Err(InvalidUrl("Not a valid YouTube URL: " + urlText))
        else match ExtractVideoId(u)
          case Err(e) => Err(e)
          case Ok(id) =>
            match ValidateVideoIdFormat(id)
            case Err(e) => Err(e)
            case Ok(_) => Ok((urlText, idOf(id)))
  }

  /** An empty URL is rejected before parsing. */
  lemma EmptyUrlRejected(parse: string -> UrlParse, idOf: string -> Id)
    ensures ValidateAndExtract("", parse, idOf) == Err(InvalidUrl("URL is empty"))
  {
  }

  /** On success the URL comes back exactly as given, its host is one of the
      five, and the id is the typed form of a well-formed id extracted from it. */
  lemma AcceptedUrl(urlText: string, parse: string -> UrlParse, idOf: string -> Id)
    requires ValidateAndExtract(urlText, parse, idOf).Ok?
    ensures urlText != "" && parse(urlText).Parsed? && IsYoutubeUrl(parse(urlText).url)
    ensures var u := parse(urlText).url;
      ExtractVideoId(u).Ok? && WellFormedId(ExtractVideoId(u).value) &&
      ValidateAndExtract(urlText, parse, idOf).value == (urlText, idOf(ExtractVideoId(u).value))
  {
    IdFormatIff(ExtractVideoId(parse(urlText).url).value);
  }

  /** A host outside the five is rejected whatever the rest of the URL says. */
  lemma ForeignHostRejected(urlText: string, parse: string -> UrlParse, idOf: string -> Id)
    requires urlText != "" && parse(urlText).Parsed? && !IsYoutubeUrl(parse(urlText).url)
    ensures ValidateAndExtract(urlText, parse, idOf) == Err(InvalidUrl("Not a valid YouTube URL: " + urlText))
  {
  }

  /** A short link "youtu.be/<id>" gives back the id, for any id without '/'
      at its start and without '?'. */
  lemma ShortLinkId(id: string, query: seq<(string, string)>)
    requires id != "" && id[0] != '/' && '?' !in id
    ensures ExtractVideoId(ParsedUrl(Some("youtu.be"), "/" + id, query)) == Ok(id)
  {
    var p := "/" + id;
    assert p[1..] == id;
    assert TrimLeadingSlashes(p) == id;
  }

  /** On other hosts the first "v" pair wins over later ones and over the path. */
  lemma FirstVWins(host: string, path: string, before: seq<(string, string)>, v: string, after: seq<(string, string)>)
    requires host != "youtu.be"
    requires forall j :: 0 <= j < |before| ==> before[j].0 != "v"
    ensures ExtractVideoId(ParsedUrl(Some(host), path, before + [("v", v)] + after)) == Ok(v)
  {
    FirstVAfter(before, v, after);
  }

  lemma {:induction false} FirstVAfter(before: seq<(string, string)>, v: string, after: seq<(string, string)>)
    requires forall j :: 0 <= j < |before| ==> before[j].0 != "v"
    ensures FirstV(before + [("v", v)] + after) == Some(v)
  {
    var q := before + [("v", v)] + after;
    if before == [] {
      assert q[0] == ("v", v);
    } else {
      assert q[0] == before[0];
      assert q[1..] == before[1..] + [("v", v)] + after;
      FirstVAfter(before[1..], v, after);
    }
  }

  /** Without a "v" pair, an embed path gives its second segment. */
  lemma EmbedPathId(host: string, id: string)
    requires host != "youtu.be" && id != "" && '/' !in id
    ensures ExtractVideoId(ParsedUrl(Some(host), "/embed/" + id, [])) == Ok(id)
  {
    var path := "/embed/" + id;
    assert path == "/" + "embed" + "/" + id;
    SplitThree("embed", id);
    var pieces: seq<string> := ["", "embed", id];
    assert pieces[1..] == ["embed", id] && pieces[1..][1..] == [id] && pieces[1..][1..][1..] == [];
    assert NonEmptyPieces(pieces[1..][1..]) == [id];
    assert NonEmptyPieces(pieces[1..]) == ["embed", id];
    assert NonEmptyPieces(pieces) == ["embed", id];
  }

  /** Splitting "/a/b" on '/' for separator-free a and b. */
  lemma SplitThree(a: string, b: string)
    requires '/' !in a && '/' !in b
    ensures Split("/" + a + "/" + b, '/') == ["", a, b]
  {
    var s := "/" + a + "/" + b;
    assert s == "" + "/" + (a + "/" + b);
    SplitCons("", a + "/" + b, '/');
    SplitCons(a, b, '/');
    assert Split(b, '/') == [b];
  }

  /** The validator's own sample id is well formed. */
  lemma SampleIdWellFormed()
    ensures WellFormedId("dQw4w9WgXcQ")
    ensures ValidateVideoIdFormat("dQw4w9WgXcQ") == Ok(())
  {
    IdFormatIff("dQw4w9WgXcQ");
  }
}
