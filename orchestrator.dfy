// The session orchestrator: the checkpointed pipeline that takes a video URL
// to a Markdown report. Each stage runs only when the checkpoint stands at the
// stage before it, records its one product, advances the status and saves the
// checkpoint. The collaborators (availability check, download, frame
// extraction, hashing, slide copying, text recognition, report generation),
// the directory listings and the checkpoint file are supplied by the caller;
// URL validation and slide deduplication are the modelled functions.

module Orchestrator {
  import opened Strings
  import opened Errors
  import opened SessionDomain
  import Availability
  import UrlValidator
  import VideoDomain
  import Frames
  import Dedup
  import Ocr
  import Document
  import Files

  datatype StartExtractionSessionCommand = StartExtractionSessionCommand(
    sessionId: Id, youtubeUrl: string, outputDir: string, frameIntervalSecs: nat,
    similarityThreshold: real, confidenceThreshold: real, languages: seq<string>)

  /** The session's working paths. */
  datatype SessionPaths = SessionPaths(
    sessionDir: string, framesDir: string, slidesDir: string, docPath: string, statePath: string)

  function PathsOf(cmd: StartExtractionSessionCommand): SessionPaths
  {
    var dir := cmd.outputDir + "/" + cmd.sessionId.uuid;
    SessionPaths(dir, dir + "/frames", dir + "/slides", dir + "/report.md", dir + "/session.json")
  }

  /** The four working paths sit directly under the session directory, and
      no two of them are the same. */
  lemma PathsDistinct(cmd: StartExtractionSessionCommand)
    ensures var p := PathsOf(cmd);
      StartsWith(p.framesDir, p.sessionDir + "/") && StartsWith(p.slidesDir, p.sessionDir + "/") &&
      StartsWith(p.docPath, p.sessionDir + "/") && StartsWith(p.statePath, p.sessionDir + "/")
    ensures var p := PathsOf(cmd);
      |{p.framesDir, p.slidesDir, p.docPath, p.statePath}| == 4
  {
    var p := PathsOf(cmd);
    var n := |p.sessionDir| + 1;
    assert p.framesDir[n] == 'f' && p.docPath[n] == 'r';
    assert p.slidesDir[n] == 's' && p.statePath[n] == 's';
    assert p.slidesDir[n + 1] == 'l' && p.statePath[n + 1] == 'e';
    assert p.framesDir[..n] == p.sessionDir + "/";
    assert p.slidesDir[..n] == p.sessionDir + "/";
    assert p.docPath[..n] == p.sessionDir + "/";
    assert p.statePath[..n] == p.sessionDir + "/";
  }

  /** The checkpoint file as found: absent, unreadable, or read and then
      either decoded or not. */
  datatype Checkpoint = NoCheckpoint | Unreadable(reason: string) | Stored(decoded: Option<SessionState>)

  /** The state a run starts from: a decoded checkpoint, else a new state. */
  function Loaded(cmd: StartExtractionSessionCommand, cp: Checkpoint): (s: SessionState)
    ensures cp.Stored? && cp.decoded.Some? ==> s == cp.decoded.value
    ensures !(cp.Stored? && cp.decoded.Some?) ==> s == NewSessionState(cmd.sessionId)
  {
    match cp
    case Stored(Some(s)) => s
    case _ => NewSessionState(cmd.sessionId)
  }

  /** A directory listing: its readable entries in path order, or the error. */
  datatype Listing = Entries(paths: seq<string>) | ListFailed(reason: string)

  /** The run's surroundings. Error texts of failed file-system calls are
      given as `Some(text)`; `frameIdOf` and `slideIdOf` name the ids made for
      the i-th directory entry, `newId` every other new id. */
  datatype Env = Env(
    createDirError: Option<string>,
    checkpoint: Checkpoint,
    parseUrl: string -> UrlValidator.UrlParse,
    idOf: string -> Id,
    availability: (Id, string) -> Result<Availability.VideoMetadata>,
    download: (VideoDomain.DownloadVideoCommand, string, string) -> Result<VideoDomain.VideoDownloaded>,
    extract: (Frames.ExtractFramesCommand, nat) -> Result<()>,
    listDir: string -> Listing,
    hash: Frames.ComputeHashCommand -> Result<Frames.HashComputed>,
    // `SlideSelector::preserve_slides`, whose own model is
    // `SlideSelector.PreserveSlides`; here only its result is used.
    preserve: (seq<Dedup.SlidePreserved>, seq<Dedup.FrameDedupMetadata>) -> Result<()>,
    ocr: Ocr.ExtractTextCommand -> Result<Ocr.TextExtracted>,
    generate: Document.GenerateDocumentCommand -> Result<Document.DocumentGenerated>,
    save: (string, SessionState) -> Option<string>,
    frameIdOf: nat -> Id,
    slideIdOf: nat -> Id,
    newId: Id)

  /** The collaborators a run called on, in order. */
  datatype Call =
    | ValidateUrl | CheckAvailability | DownloadVideo | ExtractFrames | ReadDir(dir: string)
    | ComputeHashes | PreserveSlides | ExtractTexts | GenerateDocument

  datatype CleanupOp = RemoveFile(path: string) | RemoveDirAll(dir: string)

  /** A run either finishes with a result or stops at an `unwrap` of a
      missing value. */
  datatype Outcome = Finished(result: Result<Document.DocumentGenerated>) | Panicked

  // ---------------------------------------------------------------------
  // What one stage does to the state

  /** `after` is what the stage that starts from `before` records: the next
      status and exactly one new field. */
  predicate StageStep(paths: SessionPaths, before: SessionState, after: SessionState)
  {
    match before.status
    case Starting =>
      after.videoMetadata.Some? && after == before.(status := MetadataFetched, videoMetadata := after.videoMetadata)
    case MetadataFetched =>
      after.videoPath.Some? && after == before.(status := VideoDownloaded, videoPath := after.videoPath)
    case VideoDownloaded =>
      after == before.(status := FramesExtracted, framesDir := Some(paths.framesDir))
    case FramesExtracted =>
      after == before.(status := UniqueSlidesIdentified, slidesDir := Some(paths.slidesDir))
    case UniqueSlidesIdentified =>
      after.reportPath.Some? && after == before.(status := Completed, reportPath := after.reportPath)
    case _ => false
  }

  function Last(initial: SessionState, saved: seq<SessionState>): SessionState
  {
    if saved == [] then initial else saved[|saved| - 1]
  }

  /** The checkpoint before the k-th save. */
  function Prev(initial: SessionState, saved: seq<SessionState>, k: nat): SessionState
    requires k < |saved|
  {
    if k == 0 then initial else saved[k - 1]
  }

  /** Every saved checkpoint is one stage on from the one before it. */
  predicate Chain(paths: SessionPaths, initial: SessionState, saved: seq<SessionState>)
  {
    forall k :: 0 <= k < |saved| ==> StageStep(paths, Prev(initial, saved, k), saved[k])
  }

  lemma ChainSnoc(paths: SessionPaths, initial: SessionState, saved: seq<SessionState>, next: SessionState)
    requires Chain(paths, initial, saved) && StageStep(paths, Last(initial, saved), next)
    ensures Chain(paths, initial, saved + [next]) && Last(initial, saved + [next]) == next
  {
    var s := saved + [next];
    forall k | 0 <= k < |s|
      ensures StageStep(paths, Prev(initial, s, k), s[k])
    {
      if k < |saved| {
        assert s[k] == saved[k] && Prev(initial, s, k) == Prev(initial, saved, k);
      } else {
        assert Prev(initial, s, k) == Last(initial, saved);
      }
    }
  }

  /** A chain of checkpoints walks the stages in order from where it started:
      the k-th save is the stage k + 1 places on, the session id never
      changes, no save records a failure, and there are at most five. */
  lemma {:induction false} ChainProgress(paths: SessionPaths, initial: SessionState, saved: seq<SessionState>)
    requires Chain(paths, initial, saved)
    ensures saved != [] ==> !initial.status.Failed? && Rank(initial.status) + |saved| <= 5
    ensures forall k :: 0 <= k < |saved| ==>
      !initial.status.Failed? && Rank(initial.status) + k + 1 <= 5 &&
      saved[k].status == StageAt(Rank(initial.status) + k + 1) && saved[k].sessionId == initial.sessionId
  {
    if saved != [] {
      var front := saved[..|saved| - 1];
      assert Chain(paths, initial, front) by {
        forall k | 0 <= k < |front|
          ensures StageStep(paths, Prev(initial, front, k), front[k])
        {
          assert front[k] == saved[k] && Prev(initial, front, k) == Prev(initial, saved, k);
        }
      }
      ChainProgress(paths, initial, front);
      var k := |saved| - 1;
      assert Prev(initial, saved, k) == Last(initial, front);
      assert StageStep(paths, Last(initial, front), saved[k]);
      StepAdvances(paths, Last(initial, front), saved[k]);
      if k > 0 {
        assert Last(initial, front) == front[k - 1];
      }
      forall j | 0 <= j < |saved|
        ensures !initial.status.Failed? && Rank(initial.status) + j + 1 <= 5 &&
          saved[j].status == StageAt(Rank(initial.status) + j + 1) && saved[j].sessionId == initial.sessionId
      {
        if j < k { assert saved[j] == front[j]; }
      }
    }
  }

  /** One stage moves one place along and keeps the session id. */
  lemma StepAdvances(paths: SessionPaths, a: SessionState, b: SessionState)
    requires StageStep(paths, a, b)
    ensures !a.status.Failed? && !b.status.Failed? && Rank(b.status) == Rank(a.status) + 1
    ensures b.sessionId == a.sessionId
  {
  }

  // ---------------------------------------------------------------------
  // The stages

  /** Stage 1: validate the URL and check the video's availability. It
      succeeds exactly when both do, recording the metadata, and otherwise
      fails with the error of the first that failed. */
  function MetadataStage(cmd: StartExtractionSessionCommand, env: Env, st: SessionState)
    : (r: (Result<SessionState>, seq<Call>))
    requires st.status == Starting
    ensures r.0.Ok? ==> StageStep(PathsOf(cmd), st, r.0.value)
    ensures var v := UrlValidator.ValidateAndExtract(cmd.youtubeUrl, env.parseUrl, env.idOf);
      r.0.Ok? <==> v.Ok? && env.availability(v.value.1, cmd.youtubeUrl).Ok?
    ensures var v := UrlValidator.ValidateAndExtract(cmd.youtubeUrl, env.parseUrl, env.idOf);
      r.0.Ok? ==> v.value.0 == cmd.youtubeUrl && r.0.value.videoMetadata == Some(env.availability(v.value.1, cmd.youtubeUrl).value)
    ensures var v := UrlValidator.ValidateAndExtract(cmd.youtubeUrl, env.parseUrl, env.idOf);
      r.0.Err? ==> r.0.error == (if v.Err? then v.error else env.availability(v.value.1, cmd.youtubeUrl).error)
  {
    match UrlValidator.ValidateAndExtract(cmd.youtubeUrl, env.parseUrl, env.idOf)
    case Err(e) => (Err(e), [ValidateUrl])
    case Ok(checked) =>
      UrlValidator.AcceptedUrl(cmd.youtubeUrl, env.parseUrl, env.idOf);
      match env.availability(checked.1, checked.0)
      case Err(e) => (Err(e), [ValidateUrl, CheckAvailability])
      case Ok(m) => (Ok(st.(status := MetadataFetched, videoMetadata := Some(m))), [ValidateUrl, CheckAvailability])
  }

  /** Stage 2: download the video into the session directory. It succeeds
      exactly when the download does, recording the file's path, and
      otherwise fails with the download's error. */
  function DownloadStage(cmd: StartExtractionSessionCommand, env: Env, st: SessionState)
    : (r: (Result<SessionState>, seq<Call>))
    requires st.status == MetadataFetched
    ensures r.0.Ok? ==> StageStep(PathsOf(cmd), st, r.0.value)
    ensures var d := env.download(VideoDomain.DownloadVideoCommand(env.newId), cmd.youtubeUrl, PathsOf(cmd).sessionDir);
      (r.0.Ok? <==> d.Ok?) && (r.0.Ok? ==> r.0.value.videoPath == Some(d.value.path)) && (r.0.Err? ==> r.0.error == d.error)
  {
    match env.download(VideoDomain.DownloadVideoCommand(env.newId), cmd.youtubeUrl, PathsOf(cmd).sessionDir)
    case Err(e) => (Err(e), [DownloadVideo])
    case Ok(event) => (Ok(st.(status := VideoDownloaded, videoPath := Some(event.path))), [DownloadVideo])
  }

  /** The extraction command of stage 3: JPEG frames at quality 85. */
  function ExtractCommand(cmd: StartExtractionSessionCommand, env: Env, videoPath: string): Frames.ExtractFramesCommand
  {
    Frames.ExtractFramesCommand(env.newId, videoPath, PathsOf(cmd).framesDir, cmd.frameIntervalSecs, Frames.Jpeg, Some(85))
  }

  /** Stage 3: extract frames from the downloaded video. */
  function ExtractStage(cmd: StartExtractionSessionCommand, env: Env, st: SessionState, duration: nat)
    : (r: (Result<SessionState>, seq<Call>))
    requires st.status == VideoDownloaded && st.videoPath.Some?
    ensures r.0.Ok? ==> StageStep(PathsOf(cmd), st, r.0.value)
    ensures r.0.Ok? <==> env.extract(ExtractCommand(cmd, env, st.videoPath.value), duration).Ok?
    ensures r.0.Err? ==> r.0.error == env.extract(ExtractCommand(cmd, env, st.videoPath.value), duration).error
  {
    match env.extract(ExtractCommand(cmd, env, st.videoPath.value), duration)
    case Err(e) => (Err(e), [ExtractFrames])
    case Ok(_) => (Ok(st.(status := FramesExtracted, framesDir := Some(PathsOf(cmd).framesDir))), [ExtractFrames])
  }

  /** The hashing command for the i-th entry. */
  function HashCommand(frameIdOf: nat -> Id, entries: seq<string>, i: nat): Frames.ComputeHashCommand
    requires i < |entries|
  {
    Frames.ComputeHashCommand(frameIdOf(i), entries[i], Frames.Average)
  }

  predicate IsJpg(path: string)
  {
    Files.Extension(path) == Some("jpg")
  }

  /** The frames handed to deduplication from the first n entries: each
      ".jpg" entry, hashed, numbered by its position among all entries; the
      first failing hash stops the stage. */
  function FramesOf(interval: nat, isJpg: string -> bool, hash: Frames.ComputeHashCommand -> Result<Frames.HashComputed>, frameIdOf: nat -> Id, entries: seq<string>, n: nat): Result<seq<Dedup.FrameDedupMetadata>>
    requires n <= |entries|
  {
    if n == 0 then Ok([])
    else match FramesOf(interval, isJpg, hash, frameIdOf, entries, n - 1)
      case Err(e) => Err(e)
      case Ok(frames) =>
        if !isJpg(entries[n - 1]) then Ok(frames)
        else match hash(HashCommand(frameIdOf, entries, n - 1))
          case Err(e) => Err(e)
          case Ok(event) =>
            Ok(frames + [Dedup.FrameDedupMetadata(frameIdOf(n - 1), n, ((n - 1) * interval) as real,
                                                  event.hash, entries[n - 1])])
  }

  lemma {:induction false} FramesErrorSticks(interval: nat, isJpg: string -> bool, hash: Frames.ComputeHashCommand -> Result<Frames.HashComputed>, frameIdOf: nat -> Id,
      entries: seq<string>, n: nat, m: nat)
    requires n <= m <= |entries| && FramesOf(interval, isJpg, hash, frameIdOf, entries, n).Err?
    ensures FramesOf(interval, isJpg, hash, frameIdOf, entries, m) == FramesOf(interval, isJpg, hash, frameIdOf, entries, n)
    decreases m
  {
    if m > n {
      FramesErrorSticks(interval, isJpg, hash, frameIdOf, entries, n, m - 1);
    }
  }

  /** The loop of stage 4 that hashes the ".jpg" entries. */
  method HashFrames(interval: nat, isJpg: string -> bool, hash: Frames.ComputeHashCommand -> Result<Frames.HashComputed>, frameIdOf: nat -> Id,
                    entries: seq<string>) returns (r: Result<seq<Dedup.FrameDedupMetadata>>)
    ensures r == FramesOf(interval, isJpg, hash, frameIdOf, entries, |entries|)
  {
    var frames: seq<Dedup.FrameDedupMetadata> := [];
    for i := 0 to |entries|
      invariant FramesOf(interval, isJpg, hash, frameIdOf, entries, i) == Ok(frames)
    {
      var path := entries[i];
      if isJpg(path) {
        var frameId := frameIdOf(i);
        var hashed := hash(Frames.ComputeHashCommand(frameId, path, Frames.Average));
        if hashed.Err? {
          FramesErrorSticks(interval, isJpg, hash, frameIdOf, entries, i + 1, |entries|);
          return Err(hashed.error);
        }
        frames := frames + [Dedup.FrameDedupMetadata(frameId, i + 1, (i * interval) as real, hashed.value.hash, path)];
      }
    }
    return Ok(frames);
  }

  /** Every hashed frame is the ".jpg" entry at position frameNumber - 1,
      stamped at (frameNumber - 1) intervals with that entry's hash, and the
      frames keep the entries' order. */
  lemma {:induction false} FramesNumbered(interval: nat, isJpg: string -> bool, hash: Frames.ComputeHashCommand -> Result<Frames.HashComputed>, frameIdOf: nat -> Id,
      entries: seq<string>, n: nat)
    requires n <= |entries| && FramesOf(interval, isJpg, hash, frameIdOf, entries, n).Ok?
    ensures var fs := FramesOf(interval, isJpg, hash, frameIdOf, entries, n).value;
      forall k :: 0 <= k < |fs| ==>
        1 <= fs[k].frameNumber <= n && fs[k].framePath == entries[fs[k].frameNumber - 1] &&
        isJpg(fs[k].framePath) && fs[k].frameId == frameIdOf(fs[k].frameNumber - 1) &&
        fs[k].timestamp == ((fs[k].frameNumber - 1) * interval) as real &&
        hash(HashCommand(frameIdOf, entries, fs[k].frameNumber - 1)).Ok? &&
        hash(HashCommand(frameIdOf, entries, fs[k].frameNumber - 1)).value.hash == fs[k].hash
    ensures var fs := FramesOf(interval, isJpg, hash, frameIdOf, entries, n).value;
      forall k, l :: 0 <= k < l < |fs| ==> fs[k].frameNumber < fs[l].frameNumber
  {
    if n > 0 {
      FramesNumbered(interval, isJpg, hash, frameIdOf, entries, n - 1);
      FramesSnoc(interval, isJpg, hash, frameIdOf, entries, n);
    }
  }

  /** One more entry adds at most one frame, numbered n, at the end. */
  lemma FramesSnoc(interval: nat, isJpg: string -> bool, hash: Frames.ComputeHashCommand -> Result<Frames.HashComputed>, frameIdOf: nat -> Id,
      entries: seq<string>, n: nat)
    requires 0 < n <= |entries| && FramesOf(interval, isJpg, hash, frameIdOf, entries, n).Ok?
    ensures FramesOf(interval, isJpg, hash, frameIdOf, entries, n - 1).Ok?
    ensures var before := FramesOf(interval, isJpg, hash, frameIdOf, entries, n - 1).value;
      var fs := FramesOf(interval, isJpg, hash, frameIdOf, entries, n).value;
      if isJpg(entries[n - 1]) then
        hash(HashCommand(frameIdOf, entries, n - 1)).Ok? &&
        fs == before + [Dedup.FrameDedupMetadata(frameIdOf(n - 1), n, ((n - 1) * interval) as real,
                                                 hash(HashCommand(frameIdOf, entries, n - 1)).value.hash, entries[n - 1])]
      else fs == before
  {
  }

  /** No ".jpg" entry is missed. */
  lemma {:induction false} FramesComplete(interval: nat, isJpg: string -> bool, hash: Frames.ComputeHashCommand -> Result<Frames.HashComputed>, frameIdOf: nat -> Id,
      entries: seq<string>, n: nat)
    requires n <= |entries| && FramesOf(interval, isJpg, hash, frameIdOf, entries, n).Ok?
    ensures var fs := FramesOf(interval, isJpg, hash, frameIdOf, entries, n).value;
      forall j :: 0 <= j < n && isJpg(entries[j]) ==> exists k :: 0 <= k < |fs| && fs[k].frameNumber == j + 1
  {
    if n > 0 {
      FramesComplete(interval, isJpg, hash, frameIdOf, entries, n - 1);
      FramesSnoc(interval, isJpg, hash, frameIdOf, entries, n);
      var before := FramesOf(interval, isJpg, hash, frameIdOf, entries, n - 1).value;
      var fs := FramesOf(interval, isJpg, hash, frameIdOf, entries, n).value;
      forall j | 0 <= j < n && isJpg(entries[j])
        ensures exists k :: 0 <= k < |fs| && fs[k].frameNumber == j + 1
      {
        if j == n - 1 {
          assert fs[|fs| - 1].frameNumber == j + 1;
        } else {
          var k :| 0 <= k < |before| && before[k].frameNumber == j + 1;
          assert fs[k] == before[k];
        }
      }
    }
  }

  /** A stage-4 failure in hashing is the hash error of some ".jpg" entry. */
  lemma {:induction false} FramesErrorFromHash(interval: nat, isJpg: string -> bool, hash: Frames.ComputeHashCommand -> Result<Frames.HashComputed>, frameIdOf: nat -> Id,
      entries: seq<string>, n: nat)
    requires n <= |entries| && FramesOf(interval, isJpg, hash, frameIdOf, entries, n).Err?
    ensures exists j :: (0 <= j < n && isJpg(entries[j]) &&
      hash(HashCommand(frameIdOf, entries, j)) == Err(FramesOf(interval, isJpg, hash, frameIdOf, entries, n).error))
  {
    if FramesOf(interval, isJpg, hash, frameIdOf, entries, n - 1).Err? {
      FramesErrorFromHash(interval, isJpg, hash, frameIdOf, entries, n - 1);
    } else {
      assert isJpg(entries[n - 1]) && hash(HashCommand(frameIdOf, entries, n - 1)).Err?;
    }
  }

  /** The deduplication command of stage 4: the middle frame of each group,
      at the session's similarity threshold. */
  function DedupCommand(cmd: StartExtractionSessionCommand, env: Env, frames: seq<Dedup.FrameDedupMetadata>)
    : (c: Dedup.IdentifyUniqueSlidesCommand)
    ensures c.selectionStrategy == Dedup.Middle && c.similarityThreshold == cmd.similarityThreshold
    ensures c.frames == frames && c.slidesDir == PathsOf(cmd).slidesDir
  {
    Dedup.IdentifyUniqueSlidesCommand(env.newId, PathsOf(cmd).framesDir, PathsOf(cmd).slidesDir,
                                      cmd.similarityThreshold, Dedup.Middle, frames)
  }

  /** What stage 4 returns and calls: list the frames directory, hash its
      ".jpg" entries, group them into slides, then copy each slide's frame. */
  function DedupOutcome(cmd: StartExtractionSessionCommand, env: Env, st: SessionState): (Result<SessionState>, seq<Call>)
    requires st.status == FramesExtracted && st.framesDir.Some?
  {
    var dir := st.framesDir.value;
    match env.listDir(dir)
    case ListFailed(reason) => (Err(FileSystemError("Failed to read frames directory: " + reason)), [ReadDir(dir)])
    case Entries(entries) =>
      match FramesOf(cmd.frameIntervalSecs, IsJpg, env.hash, env.frameIdOf, entries, |entries|)
      case Err(e) => (Err(e), [ReadDir(dir), ComputeHashes])
      case Ok(frames) =>
        if frames == [] then (Err(NoUniqueSlidesFound), [ReadDir(dir), ComputeHashes])
        else
          match env.preserve(Dedup.SlidesFound(DedupCommand(cmd, env, frames)), frames)
          case Err(e) => (Err(e), [ReadDir(dir), ComputeHashes, PreserveSlides])
          case Ok(_) =>
            (Ok(st.(status := UniqueSlidesIdentified, slidesDir := Some(PathsOf(cmd).slidesDir))),
             [ReadDir(dir), ComputeHashes, PreserveSlides])
  }

  /** Stage 4: hash the frames, group them into slides and copy each
      slide's representative frame. */
  method DedupStage(cmd: StartExtractionSessionCommand, env: Env, st: SessionState)
    returns (r: Result<SessionState>, calls: seq<Call>)
    requires st.status == FramesExtracted && st.framesDir.Some?
    ensures (r, calls) == DedupOutcome(cmd, env, st)
    ensures r.Ok? ==> StageStep(PathsOf(cmd), st, r.value)
    ensures r.Ok? ==> (env.listDir(st.framesDir.value).Entries? &&
      var entries := env.listDir(st.framesDir.value).paths;
      FramesOf(cmd.frameIntervalSecs, IsJpg, env.hash, env.frameIdOf, entries, |entries|).Ok? &&
      FramesOf(cmd.frameIntervalSecs, IsJpg, env.hash, env.frameIdOf, entries, |entries|).value != [])
    ensures env.listDir(st.framesDir.value).ListFailed? ==>
      r == Err(FileSystemError("Failed to read frames directory: " + env.listDir(st.framesDir.value).reason))
    ensures env.listDir(st.framesDir.value).Entries? ==>
      var entries := env.listDir(st.framesDir.value).paths;
      FramesOf(cmd.frameIntervalSecs, IsJpg, env.hash, env.frameIdOf, entries, |entries|) == Ok([]) ==> r == Err(NoUniqueSlidesFound)
  {
    var dir := st.framesDir.value;
    calls := [ReadDir(dir)];
    var listing := env.listDir(dir);
    if listing.ListFailed? {
      return Err(FileSystemError("Failed to read frames directory: " + listing.reason)), calls;
    }
    calls := [ReadDir(dir), ComputeHashes];
    var hashed := HashFrames(cmd.frameIntervalSecs, IsJpg, env.hash, env.frameIdOf, listing.paths);
    if hashed.Err? {
      return Err(hashed.error), calls;
    }
    var found := Dedup.IdentifyUniqueSlides(DedupCommand(cmd, env, hashed.value));
    if found.Err? {
      return Err(found.error), calls;
    }
    calls := [ReadDir(dir), ComputeHashes, PreserveSlides];
    var copied := env.preserve(found.value.1, hashed.value);
    if copied.Err? {
      return Err(copied.error), calls;
    }
    r := Ok(st.(status := UniqueSlidesIdentified, slidesDir := Some(PathsOf(cmd).slidesDir)));
  }

  /** Stage 4 succeeds exactly when the frames directory is listed, every
      ".jpg" entry hashes, there is at least one frame, and copying the
      slides that deduplication with the middle-frame strategy chose
      succeeds; it then records the slides directory. */
  lemma DedupStageIff(cmd: StartExtractionSessionCommand, env: Env, st: SessionState)
    requires st.status == FramesExtracted && st.framesDir.Some?
    ensures var r := DedupOutcome(cmd, env, st).0;
      var l := env.listDir(st.framesDir.value);
      r.Ok? <==> (l.Entries? &&
        var fs := FramesOf(cmd.frameIntervalSecs, IsJpg, env.hash, env.frameIdOf, l.paths, |l.paths|);
        fs.Ok? && fs.value != [] &&
        env.preserve(Dedup.SlidesFound(DedupCommand(cmd, env, fs.value)), fs.value).Ok?)
    ensures var r := DedupOutcome(cmd, env, st).0;
      r.Ok? ==> StageStep(PathsOf(cmd), st, r.value) && r.value.slidesDir == Some(PathsOf(cmd).slidesDir)
  {
  }

  /** A failed stage 4 reports its first failure: the listing's, the hash
      error of a ".jpg" entry, NoUniqueSlidesFound when there is no frame, or
      the copy's. */
  lemma DedupStageError(cmd: StartExtractionSessionCommand, env: Env, st: SessionState)
    requires st.status == FramesExtracted && st.framesDir.Some? && DedupOutcome(cmd, env, st).0.Err?
    ensures var e := DedupOutcome(cmd, env, st).0.error;
      var l := env.listDir(st.framesDir.value);
      l.ListFailed? ==> e == FileSystemError("Failed to read frames directory: " + l.reason)
    ensures var e := DedupOutcome(cmd, env, st).0.error;
      var l := env.listDir(st.framesDir.value);
      l.Entries? && FramesOf(cmd.frameIntervalSecs, IsJpg, env.hash, env.frameIdOf, l.paths, |l.paths|).Err? ==>
        exists j :: 0 <= j < |l.paths| && IsJpg(l.paths[j]) && env.hash(HashCommand(env.frameIdOf, l.paths, j)) == Err(e)
    ensures var e := DedupOutcome(cmd, env, st).0.error;
      var l := env.listDir(st.framesDir.value);
      l.Entries? && FramesOf(cmd.frameIntervalSecs, IsJpg, env.hash, env.frameIdOf, l.paths, |l.paths|) == Ok([]) ==>
        e == NoUniqueSlidesFound
    ensures var e := DedupOutcome(cmd, env, st).0.error;
      var l := env.listDir(st.framesDir.value);
      l.Entries? ==>
        var fs := FramesOf(cmd.frameIntervalSecs, IsJpg, env.hash, env.frameIdOf, l.paths, |l.paths|);
        fs.Ok? && fs.value != [] ==> e == env.preserve(Dedup.SlidesFound(DedupCommand(cmd, env, fs.value)), fs.value).error
  {
    var l := env.listDir(st.framesDir.value);
    if l.Entries? && FramesOf(cmd.frameIntervalSecs, IsJpg, env.hash, env.frameIdOf, l.paths, |l.paths|).Err? {
      FramesErrorFromHash(cmd.frameIntervalSecs, IsJpg, env.hash, env.frameIdOf, l.paths, |l.paths|);
    }
  }

  /** The text-recognition command for the i-th slide entry. */
  function OcrCommand(cmd: StartExtractionSessionCommand, env: Env, entries: seq<string>, i: nat): Ocr.ExtractTextCommand
    requires i < |entries|
  {
    Ocr.ExtractTextCommand(env.slideIdOf(i), entries[i], cmd.languages, cmd.confidenceThreshold)
  }

  /** The slides of the report from the first n entries of the slides
      directory; the first recognition error stops the stage. */
  function SlidesOf(cmd: StartExtractionSessionCommand, env: Env, entries: seq<string>, n: nat)
    : Result<seq<Document.SlideData>>
    requires n <= |entries|
  {
    if n == 0 then Ok([])
    else match SlidesOf(cmd, env, entries, n - 1)
      case Err(e) => Err(e)
      case Ok(slides) =>
        match env.ocr(OcrCommand(cmd, env, entries, n - 1))
        case Err(e) => Err(e)
        case Ok(read) => Ok(slides + [Document.SlideData(n, 0.0, entries[n - 1], read.text)])
  }

  lemma {:induction false} SlidesErrorSticks(cmd: StartExtractionSessionCommand, env: Env, entries: seq<string>, n: nat, m: nat)
    requires n <= m <= |entries| && SlidesOf(cmd, env, entries, n).Err?
    ensures SlidesOf(cmd, env, entries, m) == SlidesOf(cmd, env, entries, n)
    decreases m
  {
    if m > n {
      SlidesErrorSticks(cmd, env, entries, n, m - 1);
    }
  }

  /** The loop of stage 5 that reads the text of every slide. */
  method ReadSlides(cmd: StartExtractionSessionCommand, env: Env, entries: seq<string>)
    returns (r: Result<seq<Document.SlideData>>)
    ensures r == SlidesOf(cmd, env, entries, |entries|)
  {
    var slides: seq<Document.SlideData> := [];
    for i := 0 to |entries|
      invariant SlidesOf(cmd, env, entries, i) == Ok(slides)
    {
      var path := entries[i];
      var read := env.ocr(Ocr.ExtractTextCommand(env.slideIdOf(i), path, cmd.languages, cmd.confidenceThreshold));
      if read.Err? {
        SlidesErrorSticks(cmd, env, entries, i + 1, |entries|);
        return Err(read.error);
      }
      slides := slides + [Document.SlideData(i + 1, 0.0, path, read.value.text)];
    }
    return Ok(slides);
  }

  /** Every entry of the slides directory becomes one slide, in order,
      numbered from 1 by its position, with no timestamp and the text read
      from it. */
  lemma {:induction false} SlidesNumbered(cmd: StartExtractionSessionCommand, env: Env, entries: seq<string>, n: nat)
    requires n <= |entries| && SlidesOf(cmd, env, entries, n).Ok?
    ensures var ss := SlidesOf(cmd, env, entries, n).value;
      |ss| == n &&
      forall k :: 0 <= k < n ==>
        ss[k].slideIndex == k + 1 && ss[k].imagePath == entries[k] && ss[k].timestamp == 0.0 &&
        env.ocr(OcrCommand(cmd, env, entries, k)).Ok? && ss[k].text == env.ocr(OcrCommand(cmd, env, entries, k)).value.text
  {
    if n > 0 {
      SlidesNumbered(cmd, env, entries, n - 1);
      var before := SlidesOf(cmd, env, entries, n - 1).value;
      var ss := SlidesOf(cmd, env, entries, n).value;
      assert ss == before + [ss[n - 1]];
      forall k | 0 <= k < n - 1
        ensures ss[k] == before[k]
      {
      }
    }
  }

  /** The report command of stage 5: the video's title and duration, the
      URL as given, the slides, and always a timeline. */
  function ReportCommand(cmd: StartExtractionSessionCommand, env: Env, m: Availability.VideoMetadata,
                         slides: seq<Document.SlideData>): Document.GenerateDocumentCommand
  {
    Document.GenerateDocumentCommand(env.newId, m.title, cmd.youtubeUrl, m.duration, slides, PathsOf(cmd).docPath, true)
  }

  /** Reading the slides succeeds exactly when every recognition does; a
      failure is the error of the first slide whose recognition failed. */
  lemma {:induction false} SlidesOkIff(cmd: StartExtractionSessionCommand, env: Env, entries: seq<string>, n: nat)
    requires n <= |entries|
    ensures SlidesOf(cmd, env, entries, n).Ok? <==> forall j :: 0 <= j < n ==> env.ocr(OcrCommand(cmd, env, entries, j)).Ok?
    ensures SlidesOf(cmd, env, entries, n).Err? ==>
      exists j :: 0 <= j < n && env.ocr(OcrCommand(cmd, env, entries, j)) == Err(SlidesOf(cmd, env, entries, n).error) &&
        forall i :: 0 <= i < j ==> env.ocr(OcrCommand(cmd, env, entries, i)).Ok?
  {
    if n > 0 {
      SlidesOkIff(cmd, env, entries, n - 1);
      if SlidesOf(cmd, env, entries, n - 1).Ok? && env.ocr(OcrCommand(cmd, env, entries, n - 1)).Err? {
        assert env.ocr(OcrCommand(cmd, env, entries, n - 1)) == Err(SlidesOf(cmd, env, entries, n).error);
      }
    }
  }

  /** What stage 5 returns and calls: list the slides directory, read the
      text of every entry, then generate the report. */
  function ReportOutcome(cmd: StartExtractionSessionCommand, env: Env, st: SessionState, m: Availability.VideoMetadata)
    : (Result<SessionState>, seq<Call>)
    requires st.status == UniqueSlidesIdentified && st.slidesDir.Some?
  {
    var dir := st.slidesDir.value;
    match env.listDir(dir)
    case ListFailed(reason) => (Err(FileSystemError("Failed to read slides directory: " + reason)), [ReadDir(dir)])
    case Entries(entries) =>
      match SlidesOf(cmd, env, entries, |entries|)
      case Err(e) => (Err(e), [ReadDir(dir), ExtractTexts])
      case Ok(slides) =>
        match env.generate(ReportCommand(cmd, env, m, slides))
        case Err(e) => (Err(e), [ReadDir(dir), ExtractTexts, GenerateDocument])
        case Ok(doc) => (Ok(st.(status := Completed, reportPath := Some(doc.filePath))), [ReadDir(dir), ExtractTexts, GenerateDocument])
  }

  /** Stage 5: read the text of every slide and generate the report. */
  method ReportStage(cmd: StartExtractionSessionCommand, env: Env, st: SessionState, m: Availability.VideoMetadata)
    returns (r: Result<SessionState>, calls: seq<Call>)
    requires st.status == UniqueSlidesIdentified && st.slidesDir.Some?
    ensures (r, calls) == ReportOutcome(cmd, env, st, m)
    ensures r.Ok? ==> StageStep(PathsOf(cmd), st, r.value)
    ensures r.Ok? ==> (env.listDir(st.slidesDir.value).Entries? &&
      var entries := env.listDir(st.slidesDir.value).paths;
      var slides := SlidesOf(cmd, env, entries, |entries|);
      slides.Ok? &&
      env.generate(ReportCommand(cmd, env, m, slides.value)).Ok? &&
      r.value.reportPath == Some(env.generate(ReportCommand(cmd, env, m, slides.value)).value.filePath))
    ensures env.listDir(st.slidesDir.value).ListFailed? ==>
      r == Err(FileSystemError("Failed to read slides directory: " + env.listDir(st.slidesDir.value).reason))
  {
    var dir := st.slidesDir.value;
    calls := [ReadDir(dir)];
    var listing := env.listDir(dir);
    if listing.ListFailed? {
      return Err(FileSystemError("Failed to read slides directory: " + listing.reason)), calls;
    }
    calls := [ReadDir(dir), ExtractTexts];
    var slides := ReadSlides(cmd, env, listing.paths);
    if slides.Err? {
      return Err(slides.error), calls;
    }
    calls := [ReadDir(dir), ExtractTexts, GenerateDocument];
    var generated := env.generate(ReportCommand(cmd, env, m, slides.value));
    if generated.Err? {
      return Err(generated.error), calls;
    }
    r := Ok(st.(status := Completed, reportPath := Some(generated.value.filePath)));
  }

  /** Stage 5 succeeds exactly when the slides directory is listed, the text
      of every entry is read and the report is generated; it then records
      the generated report's path. */
  lemma ReportStageIff(cmd: StartExtractionSessionCommand, env: Env, st: SessionState, m: Availability.VideoMetadata)
    requires st.status == UniqueSlidesIdentified && st.slidesDir.Some?
    ensures var r := ReportOutcome(cmd, env, st, m).0;
      var l := env.listDir(st.slidesDir.value);
      r.Ok? <==> (l.Entries? &&
        (forall j :: 0 <= j < |l.paths| ==> env.ocr(OcrCommand(cmd, env, l.paths, j)).Ok?) &&
        SlidesOf(cmd, env, l.paths, |l.paths|).Ok? &&
        env.generate(ReportCommand(cmd, env, m, SlidesOf(cmd, env, l.paths, |l.paths|).value)).Ok?)
    ensures var r := ReportOutcome(cmd, env, st, m).0;
      var l := env.listDir(st.slidesDir.value);
      r.Ok? ==> (StageStep(PathsOf(cmd), st, r.value) && l.Entries? && SlidesOf(cmd, env, l.paths, |l.paths|).Ok? &&
        r.value.reportPath == Some(env.generate(ReportCommand(cmd, env, m, SlidesOf(cmd, env, l.paths, |l.paths|).value)).value.filePath))
  {
    var l := env.listDir(st.slidesDir.value);
    if l.Entries? {
      SlidesOkIff(cmd, env, l.paths, |l.paths|);
    }
  }

  /** A failed stage 5 reports its first failure: the listing's, the
      recognition error of the first slide that failed, or the generation's. */
  lemma ReportStageError(cmd: StartExtractionSessionCommand, env: Env, st: SessionState, m: Availability.VideoMetadata)
    requires st.status == UniqueSlidesIdentified && st.slidesDir.Some? && ReportOutcome(cmd, env, st, m).0.Err?
    ensures var e := ReportOutcome(cmd, env, st, m).0.error;
      var l := env.listDir(st.slidesDir.value);
      l.ListFailed? ==> e == FileSystemError("Failed to read slides directory: " + l.reason)
    ensures var e := ReportOutcome(cmd, env, st, m).0.error;
      var l := env.listDir(st.slidesDir.value);
      l.Entries? && SlidesOf(cmd, env, l.paths, |l.paths|).Err? ==>
        exists j :: 0 <= j < |l.paths| && env.ocr(OcrCommand(cmd, env, l.paths, j)) == Err(e) &&
          forall i :: 0 <= i < j ==> env.ocr(OcrCommand(cmd, env, l.paths, i)).Ok?
    ensures var e := ReportOutcome(cmd, env, st, m).0.error;
      var l := env.listDir(st.slidesDir.value);
      l.Entries? && SlidesOf(cmd, env, l.paths, |l.paths|).Ok? ==>
        e == env.generate(ReportCommand(cmd, env, m, SlidesOf(cmd, env, l.paths, |l.paths|).value)).error
  {
    var l := env.listDir(st.slidesDir.value);
    if l.Entries? {
      SlidesOkIff(cmd, env, l.paths, |l.paths|);
    }
  }

  // ---------------------------------------------------------------------
  // The run

  function CreateDirFailure(reason: string): ExtractionError
  {
    FileSystemError("Failed to create session directory: " + reason)
  }

  function ReadStateFailure(reason: string): ExtractionError
  {
    FileSystemError("Failed to read session state: " + reason)
  }

  function WriteStateFailure(reason: string): ExtractionError
  {
    FileSystemError("Failed to write session state: " + reason)
  }

  /** The state after the session directory and checkpoint were dealt with. */
  predicate Started(env: Env)
  {
    env.createDirError.None? && !env.checkpoint.Unreadable?
  }

  /** A state from which the run gets past every unconditional `unwrap`
      before the last one. */
  predicate Recorded(s: SessionState)
  {
    s.videoMetadata.Some? && s.videoPath.Some? && s.framesDir.Some?
  }

  function CleanupOf(s: SessionState): seq<CleanupOp>
    requires s.videoPath.Some? && s.framesDir.Some?
  {
    [RemoveFile(s.videoPath.value), RemoveDirAll(s.framesDir.value)]
  }

  /** Saving checkpoint `s`: the write error, if the write failed. */
  method Save(cmd: StartExtractionSessionCommand, env: Env, s: SessionState) returns (e: Option<ExtractionError>)
    ensures e.None? <==> env.save(PathsOf(cmd).statePath, s).None?
    ensures e.Some? ==> e.value == WriteStateFailure(env.save(PathsOf(cmd).statePath, s).value)
  {
    var written := env.save(PathsOf(cmd).statePath, s);
    if written.Some? {
      return Some(WriteStateFailure(written.value));
    }
    return None;
  }

  /** Between stages: the checkpoints written so far chain from the loaded
      state, `state` is the latest of them, and every write succeeded. */
  predicate Progress(cmd: StartExtractionSessionCommand, env: Env, saved: seq<SessionState>, state: SessionState)
  {
    Chain(PathsOf(cmd), Loaded(cmd, env.checkpoint), saved) && state == Last(Loaded(cmd, env.checkpoint), saved) &&
    forall k :: 0 <= k < |saved| ==> env.save(PathsOf(cmd).statePath, saved[k]).None?
  }

  /** Unless the loaded state had failed, `state` has not failed and is at
      stage `k` or later. */
  predicate Reached(cmd: StartExtractionSessionCommand, env: Env, state: SessionState, k: nat)
  {
    !Loaded(cmd, env.checkpoint).status.Failed? ==> !state.status.Failed? && Rank(state.status) >= k
  }

  /** A state no stage starts from. */
  predicate Terminal(s: SessionState)
  {
    s.status == Completed || s.status.Failed?
  }

  /** What a run that starts from a terminal state returns: the recorded
      report, or a panic on an unrecorded field. */
  function TerminalOutcome(env: Env, s: SessionState): Outcome
  {
    if Recorded(s) && s.reportPath.Some? then Finished(Ok(Document.DocumentGenerated(env.newId, s.reportPath.value, 0)))
    else Panicked
  }

  /** How a run ends, whatever stage it started from: the checkpoints chain
      from the loaded state and every write but a failing last one succeeded;
      a success returns the last checkpoint's report after removing its video
      and frames, reached at the final stage unless the loaded state had
      failed; a failure removes nothing. */
  predicate Ends(cmd: StartExtractionSessionCommand, env: Env, saved: seq<SessionState>, outcome: Outcome, cleanup: seq<CleanupOp>)
  {
    var initial := Loaded(cmd, env.checkpoint);
    Chain(PathsOf(cmd), initial, saved) &&
    (forall k :: 0 <= k < |saved| ==>
      env.save(PathsOf(cmd).statePath, saved[k]).None? ||
      (k == |saved| - 1 && outcome == Finished(Err(WriteStateFailure(env.save(PathsOf(cmd).statePath, saved[k]).value))))) &&
    (outcome.Finished? && outcome.result.Ok? ==>
      var last := Last(initial, saved);
      Recorded(last) && last.reportPath.Some? && cleanup == CleanupOf(last) &&
      outcome.result.value == Document.DocumentGenerated(env.newId, last.reportPath.value, 0) &&
      (!initial.status.Failed? ==> last.status == Completed)) &&
    (outcome.Finished? && outcome.result.Err? ==> cleanup == [])
  }

  // ---------------------------------------------------------------------
  // The run, specified

  /** What a run, or the rest of one, did: how it ended, the checkpoints it
      wrote (the last one possibly failing), the collaborators it called and
      the removals it made. */
  datatype Trace = Trace(outcome: Outcome, saved: seq<SessionState>, calls: seq<Call>, cleanup: seq<CleanupOp>)

  /** The fields the `unwrap`s before position k of the run have checked:
      the metadata after stage 1, the video after stage 2 and the frames
      directory after stage 3. */
  predicate Unwrapped(s: SessionState, k: nat)
  {
    (k >= 1 ==> s.videoMetadata.Some?) && (k >= 2 ==> s.videoPath.Some?) && (k >= 3 ==> s.framesDir.Some?)
  }

  /** A state the stage for its status can start from without a panic. */
  predicate Ready(s: SessionState)
  {
    !s.status.Failed? && Rank(s.status) < 5 && Unwrapped(s, Rank(s.status)) &&
    (s.status == UniqueSlidesIdentified ==> s.slidesDir.Some?)
  }

  /** The stage that starts from `s`'s status. */
  function StageOf(cmd: StartExtractionSessionCommand, env: Env, s: SessionState): (r: (Result<SessionState>, seq<Call>))
    requires Ready(s)
    ensures r.0.Ok? ==> StageStep(PathsOf(cmd), s, r.0.value)
  {
    if s.status == Starting then MetadataStage(cmd, env, s)
    else if s.status == MetadataFetched then DownloadStage(cmd, env, s)
    else if s.status == VideoDownloaded then ExtractStage(cmd, env, s, s.videoMetadata.value.duration)
    else if s.status == FramesExtracted then DedupOutcome(cmd, env, s)
    else ReportOutcome(cmd, env, s, s.videoMetadata.value)
  }

  /** The rest of a run from position k, 0 to 5. Below 5, the stage at
      position k runs when the status is the one it starts from; then the
      `unwrap` of the next position follows. Position 5 removes the video
      and the frames and returns the report. */
  function RunFrom(cmd: StartExtractionSessionCommand, env: Env, s: SessionState, k: nat): Trace
    requires k <= 5 && Unwrapped(s, k)
    decreases 5 - k, 2
  {
    if k == 5 then
      Trace(if s.reportPath.Some? then Finished(Ok(Document.DocumentGenerated(env.newId, s.reportPath.value, 0))) else Panicked,
            [], [], CleanupOf(s))
    else if s.status != StageAt(k) then Next(cmd, env, s, k)
    else if k == 4 && s.slidesDir.None? then Trace(Panicked, [], [], [])
    else
      var (step, c) := StageOf(cmd, env, s);
      AfterStage(cmd, env, k, step, c)
  }

  /** What follows the stage at position k, which returned `step` after
      the calls `c`: its error ends the run; otherwise its checkpoint is
      saved, and a failed write ends the run. */
  function AfterStage(cmd: StartExtractionSessionCommand, env: Env, k: nat, step: Result<SessionState>, c: seq<Call>): Trace
    requires k < 5
    decreases 5 - k, 1
  {
    if step.Err? then Trace(Finished(Err(step.error)), [], c, [])
    else if env.save(PathsOf(cmd).statePath, step.value).Some? then
      Trace(Finished(Err(WriteStateFailure(env.save(PathsOf(cmd).statePath, step.value).value))), [step.value], c, [])
    else
      var rest := Next(cmd, env, step.value, k);
      Trace(rest.outcome, [step.value] + rest.saved, c + rest.calls, rest.cleanup)
  }

  /** The `unwrap` after position k, then the rest of the run. */
  function Next(cmd: StartExtractionSessionCommand, env: Env, s: SessionState, k: nat): Trace
    requires k < 5
    decreases 5 - k, 0
  {
    if Unwrapped(s, k + 1) then RunFrom(cmd, env, s, k + 1) else Trace(Panicked, [], [], [])
  }

  /** `run_session`, specified: the session directory, the checkpoint, then
      the run from the loaded state. */
  function SessionRun(cmd: StartExtractionSessionCommand, env: Env): Trace
  {
    if env.createDirError.Some? then Trace(Finished(Err(CreateDirFailure(env.createDirError.value))), [], [], [])
    else if env.checkpoint.Unreadable? then Trace(Finished(Err(ReadStateFailure(env.checkpoint.reason))), [], [], [])
    else RunFrom(cmd, env, Loaded(cmd, env.checkpoint), 0)
  }

  /** A run from a state whose stage is still ahead begins with that stage. */
  lemma {:induction false} RunFromRunsStage(cmd: StartExtractionSessionCommand, env: Env, s: SessionState, k: nat)
    requires Ready(s) && k <= Rank(s.status)
    ensures StageOf(cmd, env, s).1 <= RunFrom(cmd, env, s, k).calls
    decreases 5 - k
  {
    if k < Rank(s.status) {
      RunFromRunsStage(cmd, env, s, k + 1);
    } else {
      RankStageAt(s.status);
    }
  }

  /** Each checkpoint in `saved` is what the stage for the one before it
      returned, starting from `s`. */
  predicate Produced(cmd: StartExtractionSessionCommand, env: Env, s: SessionState, saved: seq<SessionState>)
    decreases |saved|
  {
    saved == [] || (Ready(s) && StageOf(cmd, env, s).0 == Ok(saved[0]) && Produced(cmd, env, saved[0], saved[1..]))
  }

  /** Every checkpoint a run saves is what the stage for the checkpoint
      before it returned. */
  lemma {:induction false} RunFromSavesStageResults(cmd: StartExtractionSessionCommand, env: Env, s: SessionState, k: nat)
    requires k <= 5 && Unwrapped(s, k)
    ensures Produced(cmd, env, s, RunFrom(cmd, env, s, k).saved)
    decreases 5 - k, 1
  {
    if k < 5 && s.status == StageAt(k) && !(k == 4 && s.slidesDir.None?) {
      StageSaves(cmd, env, s, k);
    } else if k < 5 && Unwrapped(s, k + 1) {
      RunFromSavesStageResults(cmd, env, s, k + 1);
    }
  }

  /** `RunFromSavesStageResults` where the stage at position k runs. */
  lemma {:induction false} StageSaves(cmd: StartExtractionSessionCommand, env: Env, s: SessionState, k: nat)
    requires k < 5 && Unwrapped(s, k) && s.status == StageAt(k) && !(k == 4 && s.slidesDir.None?)
    ensures Produced(cmd, env, s, RunFrom(cmd, env, s, k).saved)
    decreases 5 - k, 0
  {
    RankStageAt(s.status);
    var step := StageOf(cmd, env, s).0;
    if step.Ok? && env.save(PathsOf(cmd).statePath, step.value).None? && Unwrapped(step.value, k + 1) {
      RunFromSavesStageResults(cmd, env, step.value, k + 1);
      var rest := RunFrom(cmd, env, step.value, k + 1);
      assert ([step.value] + rest.saved)[1..] == rest.saved;
    }
  }

  /** A run that fails reports the write error of its last checkpoint, or
      the error of the stage that starts from its last checkpoint. */
  lemma {:induction false} RunFromError(cmd: StartExtractionSessionCommand, env: Env, s: SessionState, k: nat)
    requires k <= 5 && Unwrapped(s, k)
    requires RunFrom(cmd, env, s, k).outcome.Finished? && RunFrom(cmd, env, s, k).outcome.result.Err?
    ensures FailsAfter(cmd, env, s, RunFrom(cmd, env, s, k).saved, RunFrom(cmd, env, s, k).outcome.result.error)
    decreases 5 - k, 2
  {
    if k < 5 && s.status == StageAt(k) && !(k == 4 && s.slidesDir.None?) {
      StageError(cmd, env, s, k);
    } else if k < 5 {
      RunFromError(cmd, env, s, k + 1);
    }
  }

  /** Error `e` ends a run from `s` that saved `saved`: the write of the last
      checkpoint failed with it, or the stage that starts from the last
      checkpoint did. */
  predicate FailsAfter(cmd: StartExtractionSessionCommand, env: Env, s: SessionState, saved: seq<SessionState>, e: ExtractionError)
    decreases |saved|
  {
    if saved == [] then Ready(s) && StageOf(cmd, env, s).0 == Err(e)
    else
      (|saved| == 1 && env.save(PathsOf(cmd).statePath, saved[0]).Some? &&
       e == WriteStateFailure(env.save(PathsOf(cmd).statePath, saved[0]).value)) ||
      FailsAfter(cmd, env, saved[0], saved[1..], e)
  }

  /** `RunFromError` where the stage at position k runs. */
  lemma {:induction false} StageError(cmd: StartExtractionSessionCommand, env: Env, s: SessionState, k: nat)
    requires k < 5 && Unwrapped(s, k) && s.status == StageAt(k) && !(k == 4 && s.slidesDir.None?)
    requires RunFrom(cmd, env, s, k).outcome.Finished? && RunFrom(cmd, env, s, k).outcome.result.Err?
    ensures FailsAfter(cmd, env, s, RunFrom(cmd, env, s, k).saved, RunFrom(cmd, env, s, k).outcome.result.error)
    decreases 5 - k, 1
  {
    RankStageAt(s.status);
    var step := StageOf(cmd, env, s).0;
    if step.Ok? && env.save(PathsOf(cmd).statePath, step.value).None? {
      LaterStageError(cmd, env, s, k);
    }
  }

  /** `StageError` where the stage's checkpoint is saved and the run goes on. */
  lemma {:induction false} LaterStageError(cmd: StartExtractionSessionCommand, env: Env, s: SessionState, k: nat)
    requires k < 5 && Unwrapped(s, k) && s.status == StageAt(k) && !(k == 4 && s.slidesDir.None?)
    requires StageOf(cmd, env, s).0.Ok?
    requires env.save(PathsOf(cmd).statePath, StageOf(cmd, env, s).0.value).None?
    requires RunFrom(cmd, env, s, k).outcome.Finished? && RunFrom(cmd, env, s, k).outcome.result.Err?
    ensures FailsAfter(cmd, env, s, RunFrom(cmd, env, s, k).saved, RunFrom(cmd, env, s, k).outcome.result.error)
    decreases 5 - k, 0
  {
    var v := StageOf(cmd, env, s).0.value;
    RunFromError(cmd, env, v, k + 1);
    var rest := RunFrom(cmd, env, v, k + 1);
    assert ([v] + rest.saved)[1..] == rest.saved;
  }

  /** A checkpoint that holds what its stage implies: the fields recorded by
      the stages it has passed. A new state is one. */
  predicate Consistent(s: SessionState)
  {
    !s.status.Failed? && Unwrapped(s, Rank(s.status)) &&
    (Rank(s.status) >= 4 ==> s.slidesDir.Some?) && (s.status == Completed ==> s.reportPath.Some?)
  }

  lemma StepConsistent(paths: SessionPaths, a: SessionState, b: SessionState)
    requires Consistent(a) && StageStep(paths, a, b)
    ensures Consistent(b) && Rank(b.status) == Rank(a.status) + 1
  {
  }

  /** From a consistent checkpoint a run never panics: it finishes, with the
      report or with an error. */
  lemma {:induction false} RunFromFinishes(cmd: StartExtractionSessionCommand, env: Env, s: SessionState, k: nat)
    requires Consistent(s) && k <= Rank(s.status)
    ensures RunFrom(cmd, env, s, k).outcome.Finished?
    decreases 5 - k
  {
    if k < Rank(s.status) {
      RunFromFinishes(cmd, env, s, k + 1);
    } else if k < 5 {
      RankStageAt(s.status);
      var step := StageOf(cmd, env, s).0;
      if step.Ok? && env.save(PathsOf(cmd).statePath, step.value).None? {
        StepConsistent(PathsOf(cmd), s, step.value);
        RunFromFinishes(cmd, env, step.value, k + 1);
      }
    }
  }

  /** Every stage from `s` to the end succeeds, and so does every save. */
  predicate Succeeds(cmd: StartExtractionSessionCommand, env: Env, s: SessionState)
    requires Consistent(s)
    decreases 5 - Rank(s.status)
  {
    Rank(s.status) == 5 ||
    (var step := StageOf(cmd, env, s).0;
     step.Ok? && env.save(PathsOf(cmd).statePath, step.value).None? &&
     (StepConsistent(PathsOf(cmd), s, step.value); Succeeds(cmd, env, step.value)))
  }

  /** From a consistent checkpoint the run returns the report exactly when
      every stage and every save succeeds. */
  lemma {:induction false} RunFromOkIff(cmd: StartExtractionSessionCommand, env: Env, s: SessionState, k: nat)
    requires Consistent(s) && k <= Rank(s.status)
    ensures RunFrom(cmd, env, s, k).outcome.Finished? && RunFrom(cmd, env, s, k).outcome.result.Ok? <==> Succeeds(cmd, env, s)
    decreases 5 - k, 1
  {
    if k < Rank(s.status) {
      RunFromOkIff(cmd, env, s, k + 1);
    } else if k < 5 {
      StageOkIff(cmd, env, s);
    }
  }

  /** `RunFromOkIff` where the stage for `s`'s status runs. */
  lemma {:induction false} StageOkIff(cmd: StartExtractionSessionCommand, env: Env, s: SessionState)
    requires Consistent(s) && Rank(s.status) < 5
    ensures var t := RunFrom(cmd, env, s, Rank(s.status));
      t.outcome.Finished? && t.outcome.result.Ok? <==> Succeeds(cmd, env, s)
    decreases 5 - Rank(s.status), 0
  {
    RankStageAt(s.status);
    var step := StageOf(cmd, env, s).0;
    if step.Ok? && env.save(PathsOf(cmd).statePath, step.value).None? {
      StepConsistent(PathsOf(cmd), s, step.value);
      RunFromOkIff(cmd, env, step.value, Rank(s.status) + 1);
    }
  }

  /** `run_session` once the session directory and the checkpoint were dealt
      with: the first stage due runs; each checkpoint is its stage's result;
      a failure is a failing write or stage; and from a consistent or a new
      state the run never panics and returns the report exactly when every
      stage and save succeeds. */
  lemma SessionRunFacts(cmd: StartExtractionSessionCommand, env: Env)
    requires Started(env)
    ensures var s0, t := Loaded(cmd, env.checkpoint), SessionRun(cmd, env);
      Produced(cmd, env, s0, t.saved) &&
      (Ready(s0) ==> StageOf(cmd, env, s0).1 <= t.calls) &&
      (t.outcome.Finished? && t.outcome.result.Err? ==> FailsAfter(cmd, env, s0, t.saved, t.outcome.result.error))
    ensures var s0, t := Loaded(cmd, env.checkpoint), SessionRun(cmd, env);
      Consistent(s0) || !(env.checkpoint.Stored? && env.checkpoint.decoded.Some?) ==>
        Consistent(s0) && t.outcome.Finished? && (t.outcome.result.Ok? <==> Succeeds(cmd, env, s0))
  {
    var s0 := Loaded(cmd, env.checkpoint);
    RunFromSavesStageResults(cmd, env, s0, 0);
    if Ready(s0) {
      RunFromRunsStage(cmd, env, s0, 0);
    }
    var t := RunFrom(cmd, env, s0, 0);
    if t.outcome.Finished? && t.outcome.result.Err? {
      RunFromError(cmd, env, s0, 0);
    }
    if Consistent(s0) {
      RunFromFinishes(cmd, env, s0, 0);
      RunFromOkIff(cmd, env, s0, 0);
    }
  }

  /** A run from a state reached between stages ends as `Ends` says,
      with the checkpoints written so far in front of its own. */
  lemma {:induction false} RunFromEnds(cmd: StartExtractionSessionCommand, env: Env, saved: seq<SessionState>, s: SessionState, k: nat)
    requires k <= 5 && Unwrapped(s, k) && Progress(cmd, env, saved, s) && Reached(cmd, env, s, k)
    ensures var t := RunFrom(cmd, env, s, k); Ends(cmd, env, saved + t.saved, t.outcome, t.cleanup)
    decreases 5 - k, 2
  {
    if k == 5 {
      assert saved + [] == saved;
    } else if s.status != StageAt(k) {
      if Unwrapped(s, k + 1) {
        if !s.status.Failed? {
          RankStageAt(s.status);
        }
        RunFromEnds(cmd, env, saved, s, k + 1);
      } else {
        assert saved + [] == saved;
      }
    } else if k == 4 && s.slidesDir.None? {
      assert saved + [] == saved;
    } else {
      var (step, c) := StageOf(cmd, env, s);
      AfterStageEnds(cmd, env, saved, s, k, step, c);
    }
  }

  /** `RunFromEnds` for what follows a stage that starts from `s`. */
  lemma {:induction false} AfterStageEnds(cmd: StartExtractionSessionCommand, env: Env, saved: seq<SessionState>, s: SessionState, k: nat,
                                          step: Result<SessionState>, c: seq<Call>)
    requires k < 5 && Progress(cmd, env, saved, s) && Reached(cmd, env, s, k)
    requires step.Ok? ==> StageStep(PathsOf(cmd), s, step.value)
    ensures var t := AfterStage(cmd, env, k, step, c); Ends(cmd, env, saved + t.saved, t.outcome, t.cleanup)
    decreases 5 - k, 1
  {
    if step.Err? {
      assert saved + [] == saved;
    } else if env.save(PathsOf(cmd).statePath, step.value).Some? {
      WriteFailureEnds(cmd, env, saved, s, step.value);
    } else {
      ContinueEnds(cmd, env, saved, s, k, step.value, c);
    }
  }

  /** A failed write of the next checkpoint ends the run as `Ends` says. */
  lemma WriteFailureEnds(cmd: StartExtractionSessionCommand, env: Env, saved: seq<SessionState>, s: SessionState, v: SessionState)
    requires Progress(cmd, env, saved, s) && StageStep(PathsOf(cmd), s, v)
    requires env.save(PathsOf(cmd).statePath, v).Some?
    ensures Ends(cmd, env, saved + [v], Finished(Err(WriteStateFailure(env.save(PathsOf(cmd).statePath, v).value))), [])
  {
    ChainSnoc(PathsOf(cmd), Loaded(cmd, env.checkpoint), saved, v);
    assert forall j :: 0 <= j < |saved + [v]| ==> (saved + [v])[j] == (if j < |saved| then saved[j] else v);
  }

  /** A successful write of the next checkpoint keeps `Progress`. */
  lemma ProgressSnoc(cmd: StartExtractionSessionCommand, env: Env, saved: seq<SessionState>, s: SessionState, v: SessionState)
    requires Progress(cmd, env, saved, s) && StageStep(PathsOf(cmd), s, v)
    requires env.save(PathsOf(cmd).statePath, v).None?
    ensures Progress(cmd, env, saved + [v], v)
  {
    ChainSnoc(PathsOf(cmd), Loaded(cmd, env.checkpoint), saved, v);
    assert forall j :: 0 <= j < |saved + [v]| ==> (saved + [v])[j] == (if j < |saved| then saved[j] else v);
  }

  /** `AfterStageEnds` where the checkpoint `v` is saved and the run goes on. */
  lemma {:induction false} ContinueEnds(cmd: StartExtractionSessionCommand, env: Env, saved: seq<SessionState>, s: SessionState, k: nat,
                                        v: SessionState, c: seq<Call>)
    requires k < 5 && Progress(cmd, env, saved, s) && Reached(cmd, env, s, k)
    requires StageStep(PathsOf(cmd), s, v) && env.save(PathsOf(cmd).statePath, v).None?
    ensures var t := AfterStage(cmd, env, k, Ok(v), c); Ends(cmd, env, saved + t.saved, t.outcome, t.cleanup)
    decreases 5 - k, 0
  {
    ProgressSnoc(cmd, env, saved, s, v);
    StepAdvances(PathsOf(cmd), s, v);
    if Unwrapped(v, k + 1) {
      RunFromEnds(cmd, env, saved + [v], v, k + 1);
      AppendAssoc(saved, [v], RunFrom(cmd, env, v, k + 1).saved);
    } else {
      assert saved + ([v] + []) == saved + [v];
    }
  }

  /** From a terminal state no stage runs and nothing is saved: the run
      returns the recorded report, or panics. */
  lemma {:induction false} RunFromTerminal(cmd: StartExtractionSessionCommand, env: Env, s: SessionState, k: nat)
    requires k <= 5 && Unwrapped(s, k) && Terminal(s)
    ensures var t := RunFrom(cmd, env, s, k);
      t.saved == [] && t.calls == [] && t.outcome == TerminalOutcome(env, s)
    decreases 5 - k
  {
    if k < 5 && Unwrapped(s, k + 1) {
      RunFromTerminal(cmd, env, s, k + 1);
    }
  }

  lemma AppendAssoc(a: seq<SessionState>, b: seq<SessionState>, c: seq<SessionState>)
    ensures a + (b + c) == (a + b) + c
  {
  }

  /** Recording a finished stage: the new checkpoint is appended and saved;
      a failed write ends the run with its error. */
  method Advance(cmd: StartExtractionSessionCommand, env: Env, saved: seq<SessionState>, state: SessionState, next: SessionState)
    returns (saved': seq<SessionState>, failed: Option<ExtractionError>)
    requires Progress(cmd, env, saved, state) && StageStep(PathsOf(cmd), state, next)
    ensures saved' == saved + [next]
    ensures failed.None? <==> env.save(PathsOf(cmd).statePath, next).None?
    ensures failed.None? ==> Progress(cmd, env, saved', next)
    ensures failed.Some? ==> failed.value == WriteStateFailure(env.save(PathsOf(cmd).statePath, next).value) &&
                             Ends(cmd, env, saved', Finished(Err(failed.value)), [])
  {
    ChainSnoc(PathsOf(cmd), Loaded(cmd, env.checkpoint), saved, next);
    saved' := saved + [next];
    failed := Save(cmd, env, next);
    assert forall k :: 0 <= k < |saved'| ==> saved'[k] == (if k < |saved| then saved[k] else next);
  }

  /** Stage 1 onwards. */
  method FromMetadata(cmd: StartExtractionSessionCommand, env: Env, saved: seq<SessionState>, state: SessionState)
    returns (outcome: Outcome, saved': seq<SessionState>, calls: seq<Call>, cleanup: seq<CleanupOp>)
    requires Progress(cmd, env, saved, state) && Reached(cmd, env, state, 0)
    ensures var t := RunFrom(cmd, env, state, 0);
      outcome == t.outcome && saved' == saved + t.saved && calls == t.calls && cleanup == t.cleanup
    ensures Ends(cmd, env, saved', outcome, cleanup)
    ensures Terminal(state) ==> saved' == saved && calls == [] && outcome == TerminalOutcome(env, state)
  {
    saved', calls, cleanup := saved, [], [];
    var st := state;
    ghost var head: seq<SessionState> := [];
    ghost var t := RunFrom(cmd, env, state, 0);
    RunFromEnds(cmd, env, saved, state, 0);
    if Terminal(state) {
      RunFromTerminal(cmd, env, state, 0);
    }
    if st.status == Starting {
      var (step, stepCalls) := MetadataStage(cmd, env, st);
      assert t == AfterStage(cmd, env, 0, step, stepCalls);
      calls := stepCalls;
      if step.Err? {
        return Finished(Err(step.error)), saved', calls, cleanup;
      }
      var failed;
      saved', failed := Advance(cmd, env, saved', st, step.value);
      st := step.value;
      head := [st];
      if failed.Some? {
        return Finished(Err(failed.value)), saved', calls, cleanup;
      }
    }
    if st.videoMetadata.None? {
      return Panicked, saved', calls, cleanup;
    }
    ghost var after := RunFrom(cmd, env, st, 1);
    assert t == Trace(after.outcome, head + after.saved, calls + after.calls, after.cleanup);
    assert saved' == saved + head;
    var rest;
    outcome, saved', rest, cleanup := FromDownload(cmd, env, saved', st, st.videoMetadata.value);
    calls := calls + rest;
    AppendAssoc(saved, head, after.saved);
  }

  /** Stage 2 onwards, with the metadata the first stage recorded. */
  method FromDownload(cmd: StartExtractionSessionCommand, env: Env, saved: seq<SessionState>, state: SessionState,
                      metadata: Availability.VideoMetadata)
    returns (outcome: Outcome, saved': seq<SessionState>, calls: seq<Call>, cleanup: seq<CleanupOp>)
    requires Progress(cmd, env, saved, state) && Reached(cmd, env, state, 1)
    requires state.videoMetadata == Some(metadata)
    ensures var t := RunFrom(cmd, env, state, 1);
      outcome == t.outcome && saved' == saved + t.saved && calls == t.calls && cleanup == t.cleanup
    ensures Ends(cmd, env, saved', outcome, cleanup)
    ensures Terminal(state) ==> saved' == saved && calls == [] && outcome == TerminalOutcome(env, state)
  {
    saved', calls, cleanup := saved, [], [];
    var st := state;
    ghost var head: seq<SessionState> := [];
    ghost var t := RunFrom(cmd, env, state, 1);
    RunFromEnds(cmd, env, saved, state, 1);
    if Terminal(state) {
      RunFromTerminal(cmd, env, state, 1);
    }
    if st.status == MetadataFetched {
      var (step, stepCalls) := DownloadStage(cmd, env, st);
      assert t == AfterStage(cmd, env, 1, step, stepCalls);
      calls := stepCalls;
      if step.Err? {
        return Finished(Err(step.error)), saved', calls, cleanup;
      }
      var failed;
      saved', failed := Advance(cmd, env, saved', st, step.value);
      st := step.value;
      head := [st];
      if failed.Some? {
        return Finished(Err(failed.value)), saved', calls, cleanup;
      }
    }
    if st.videoPath.None? {
      return Panicked, saved', calls, cleanup;
    }
    ghost var after := RunFrom(cmd, env, st, 2);
    assert t == Trace(after.outcome, head + after.saved, calls + after.calls, after.cleanup);
    assert saved' == saved + head;
    var rest;
    outcome, saved', rest, cleanup := FromFrames(cmd, env, saved', st, metadata);
    calls := calls + rest;
    AppendAssoc(saved, head, after.saved);
  }

  /** Stage 3 onwards. */
  method FromFrames(cmd: StartExtractionSessionCommand, env: Env, saved: seq<SessionState>, state: SessionState,
                    metadata: Availability.VideoMetadata)
    returns (outcome: Outcome, saved': seq<SessionState>, calls: seq<Call>, cleanup: seq<CleanupOp>)
    requires Progress(cmd, env, saved, state) && Reached(cmd, env, state, 2)
    requires state.videoMetadata == Some(metadata) && state.videoPath.Some?
    ensures var t := RunFrom(cmd, env, state, 2);
      outcome == t.outcome && saved' == saved + t.saved && calls == t.calls && cleanup == t.cleanup
    ensures Ends(cmd, env, saved', outcome, cleanup)
    ensures Terminal(state) ==> saved' == saved && calls == [] && outcome == TerminalOutcome(env, state)
  {
    saved', calls, cleanup := saved, [], [];
    var st := state;
    ghost var head: seq<SessionState> := [];
    ghost var t := RunFrom(cmd, env, state, 2);
    RunFromEnds(cmd, env, saved, state, 2);
    if Terminal(state) {
      RunFromTerminal(cmd, env, state, 2);
    }
    if st.status == VideoDownloaded {
      var (step, stepCalls) := ExtractStage(cmd, env, st, metadata.duration);
      assert t == AfterStage(cmd, env, 2, step, stepCalls);
      calls := stepCalls;
      if step.Err? {
        return Finished(Err(step.error)), saved', calls, cleanup;
      }
      var failed;
      saved', failed := Advance(cmd, env, saved', st, step.value);
      st := step.value;
      head := [st];
      if failed.Some? {
        return Finished(Err(failed.value)), saved', calls, cleanup;
      }
    }
    if st.framesDir.None? {
      return Panicked, saved', calls, cleanup;
    }
    ghost var after := RunFrom(cmd, env, st, 3);
    assert t == Trace(after.outcome, head + after.saved, calls + after.calls, after.cleanup);
    assert saved' == saved + head;
    var rest;
    outcome, saved', rest, cleanup := FromSlides(cmd, env, saved', st, metadata);
    calls := calls + rest;
    AppendAssoc(saved, head, after.saved);
  }

  /** Stage 4 onwards. */
  method FromSlides(cmd: StartExtractionSessionCommand, env: Env, saved: seq<SessionState>, state: SessionState,
                    metadata: Availability.VideoMetadata)
    returns (outcome: Outcome, saved': seq<SessionState>, calls: seq<Call>, cleanup: seq<CleanupOp>)
    requires Progress(cmd, env, saved, state) && Reached(cmd, env, state, 3)
    requires state.videoMetadata == Some(metadata) && Recorded(state)
    ensures var t := RunFrom(cmd, env, state, 3);
      outcome == t.outcome && saved' == saved + t.saved && calls == t.calls && cleanup == t.cleanup
    ensures Ends(cmd, env, saved', outcome, cleanup)
    ensures Terminal(state) ==> saved' == saved && calls == [] && outcome == TerminalOutcome(env, state)
  {
    saved', calls, cleanup := saved, [], [];
    var st := state;
    ghost var head: seq<SessionState> := [];
    ghost var t := RunFrom(cmd, env, state, 3);
    RunFromEnds(cmd, env, saved, state, 3);
    if Terminal(state) {
      RunFromTerminal(cmd, env, state, 3);
    }
    if st.status == FramesExtracted {
      var step, stepCalls := DedupStage(cmd, env, st);
      assert t == AfterStage(cmd, env, 3, step, stepCalls);
      calls := stepCalls;
      if step.Err? {
        return Finished(Err(step.error)), saved', calls, cleanup;
      }
      var failed;
      saved', failed := Advance(cmd, env, saved', st, step.value);
      st := step.value;
      head := [st];
      if failed.Some? {
        return Finished(Err(failed.value)), saved', calls, cleanup;
      }
    }
    ghost var after := RunFrom(cmd, env, st, 4);
    assert t == Trace(after.outcome, head + after.saved, calls + after.calls, after.cleanup);
    assert saved' == saved + head;
    var rest;
    outcome, saved', rest, cleanup := FromReport(cmd, env, saved', st, metadata);
    calls := calls + rest;
    AppendAssoc(saved, head, after.saved);
  }

  /** Stage 5, then the removal of the video and the frames. */
  method FromReport(cmd: StartExtractionSessionCommand, env: Env, saved: seq<SessionState>, state: SessionState,
                    metadata: Availability.VideoMetadata)
    returns (outcome: Outcome, saved': seq<SessionState>, calls: seq<Call>, cleanup: seq<CleanupOp>)
    requires Progress(cmd, env, saved, state) && Reached(cmd, env, state, 4)
    requires state.videoMetadata == Some(metadata) && Recorded(state)
    ensures var t := RunFrom(cmd, env, state, 4);
      outcome == t.outcome && saved' == saved + t.saved && calls == t.calls && cleanup == t.cleanup
    ensures Ends(cmd, env, saved', outcome, cleanup)
    ensures Terminal(state) ==> saved' == saved && calls == [] && outcome == TerminalOutcome(env, state)
  {
    saved', calls, cleanup := saved, [], [];
    var st := state;
    ghost var t := RunFrom(cmd, env, state, 4);
    RunFromEnds(cmd, env, saved, state, 4);
    if Terminal(state) {
      RunFromTerminal(cmd, env, state, 4);
    }
    if st.status == UniqueSlidesIdentified {
      if st.slidesDir.None? {
        return Panicked, saved', calls, cleanup;
      }
      var step, stepCalls := ReportStage(cmd, env, st, metadata);
      assert t == AfterStage(cmd, env, 4, step, stepCalls);
      calls := stepCalls;
      if step.Err? {
        return Finished(Err(step.error)), saved', calls, cleanup;
      }
      var failed;
      saved', failed := Advance(cmd, env, saved', st, step.value);
      st := step.value;
      if failed.Some? {
        return Finished(Err(failed.value)), saved', calls, cleanup;
      }
    }
    // Errors of the removals are ignored.
    cleanup := CleanupOf(st);
    if st.reportPath.None? {
      return Panicked, saved', calls, cleanup;
    }
    outcome := Finished(Ok(Document.DocumentGenerated(env.newId, st.reportPath.value, 0)));
  }

  /** `run_session`. `saved` lists the checkpoints it wrote (the last one
      possibly failing), `calls` the collaborators it called, and `cleanup`
      the removals it made once the stages were over. */
  method RunSession(cmd: StartExtractionSessionCommand, env: Env)
    returns (outcome: Outcome, saved: seq<SessionState>, calls: seq<Call>, cleanup: seq<CleanupOp>)
    ensures Trace(outcome, saved, calls, cleanup) == SessionRun(cmd, env)
    ensures env.createDirError.Some? ==>
      outcome == Finished(Err(CreateDirFailure(env.createDirError.value))) && saved == [] && calls == []
    ensures env.createDirError.None? && env.checkpoint.Unreadable? ==>
      outcome == Finished(Err(ReadStateFailure(env.checkpoint.reason))) && saved == [] && calls == []
    ensures Chain(PathsOf(cmd), Loaded(cmd, env.checkpoint), saved)
    ensures forall k :: 0 <= k < |saved| ==>
      env.save(PathsOf(cmd).statePath, saved[k]).None? ||
      (k == |saved| - 1 && outcome == Finished(Err(WriteStateFailure(env.save(PathsOf(cmd).statePath, saved[k]).value))))
    ensures var initial := Loaded(cmd, env.checkpoint);
      Started(env) && Terminal(initial) ==>
        saved == [] && calls == [] &&
        outcome == (if Recorded(initial) && initial.reportPath.Some?
                    then Finished(Ok(Document.DocumentGenerated(env.newId, initial.reportPath.value, 0)))
                    else Panicked)
    ensures outcome.Finished? && outcome.result.Ok? ==>
      var last := Last(Loaded(cmd, env.checkpoint), saved);
      Recorded(last) && last.reportPath.Some? && cleanup == CleanupOf(last) &&
      outcome.result.value == Document.DocumentGenerated(env.newId, last.reportPath.value, 0) &&
      (!Loaded(cmd, env.checkpoint).status.Failed? ==> last.status == Completed)
    ensures outcome.Finished? && outcome.result.Err? ==> cleanup == []
  {
    saved, calls, cleanup := [], [], [];
    if env.createDirError.Some? {
      return Finished(Err(CreateDirFailure(env.createDirError.value))), saved, calls, cleanup;
    }
    if env.checkpoint.Unreadable? {
      return Finished(Err(ReadStateFailure(env.checkpoint.reason))), saved, calls, cleanup;
    }
    outcome, saved, calls, cleanup := FromMetadata(cmd, env, [], Loaded(cmd, env.checkpoint));
    assert [] + RunFrom(cmd, env, Loaded(cmd, env.checkpoint), 0).saved == saved;
  }
}
