// Availability of a video: the duration and age policy applied to fetched
// metadata, the classification of a failed metadata fetch from the fetch
// tool's error output, and the coarser status classification from an
// error's text. The fetch tool itself, its timeout and its JSON decoding are
// supplied by the caller as an outcome and a decoding function.

module Availability {
  import opened Strings
  import opened Errors
  import opened Formatting

  datatype VideoMetadata = VideoMetadata(
    title: string, duration: nat, width: nat, height: nat, uploader: string,
    uploadDate: string, viewCount: Option<nat>, ageRestricted: bool)

  datatype AvailabilityStatus =
    | Available | Private | Deleted | AgeRestricted | RegionLocked | Unavailable(reason: string)

  /** Timeout in milliseconds; a duration bound of 0 means no bound. */
  datatype CheckerConfig = CheckerConfig(timeoutMs: nat, maxDuration: nat, minDuration: nat)

  /** Five seconds, at most four hours, no minimum. */
  function DefaultCheckerConfig(): (c: CheckerConfig)
    ensures c.timeoutMs == 5000 && c.maxDuration == 14400 && c.minDuration == 0
  {
    CheckerConfig(5000, 4 * 60 * 60, 0)
  }

  function WithTimeout(c: CheckerConfig, ms: nat): (r: CheckerConfig)
    ensures r.timeoutMs == ms && r.maxDuration == c.maxDuration && r.minDuration == c.minDuration
  {
    c.(timeoutMs := ms)
  }

  function WithMaxDuration(c: CheckerConfig, max: nat): (r: CheckerConfig)
    ensures r.maxDuration == max && r.timeoutMs == c.timeoutMs && r.minDuration == c.minDuration
  {
    c.(maxDuration := max)
  }

  function WithMinDuration(c: CheckerConfig, min: nat): (r: CheckerConfig)
    ensures r.minDuration == min && r.timeoutMs == c.timeoutMs && r.maxDuration == c.maxDuration
  {
    c.(minDuration := min)
  }

  /** The program's builder example: 10 s, at most an hour, at least 10 s. */
  lemma BuilderExample()
    ensures WithMinDuration(WithMaxDuration(WithTimeout(DefaultCheckerConfig(), 10000), 3600), 10) ==
            CheckerConfig(10000, 3600, 10)
  {
  }

  function TooShortMessage(duration: nat, min: nat): string
  {
    "Video is too short: " + NatToString(duration) + " seconds (minimum: " + NatToString(min) + " seconds)"
  }

  /** The checks of `check_availability` on fetched metadata, in order: too
      long, too short, age-restricted. */
  function Policy(c: CheckerConfig, m: VideoMetadata): Result<VideoMetadata>
  {
    if c.maxDuration > 0 && m.duration > c.maxDuration then Err(VideoTooLong(m.duration, c.maxDuration))
    else if c.minDuration > 0 && m.duration < c.minDuration then Err(InvalidUrl(TooShortMessage(m.duration, c.minDuration)))
    else if m.ageRestricted then Err(VideoAgeRestricted)
    else Ok(m)
  }

  /** A video passes exactly when it is within both enabled bounds and not
      age-restricted, and then its metadata comes back unchanged. */
  lemma PolicyAcceptsIff(c: CheckerConfig, m: VideoMetadata)
    ensures Policy(c, m).Ok? <==>
      (c.maxDuration == 0 || m.duration <= c.maxDuration) &&
      (c.minDuration == 0 || m.duration >= c.minDuration) && !m.ageRestricted
    ensures Policy(c, m).Ok? ==> Policy(c, m).value == m
  {
  }

  /** The length bound is checked first: an over-long video is reported as
      too long even when it is also age-restricted. */
  lemma TooLongFirst(c: CheckerConfig, m: VideoMetadata)
    requires c.maxDuration > 0 && m.duration > c.maxDuration
    ensures Policy(c, m) == Err(VideoTooLong(m.duration, c.maxDuration))
  {
  }

  /** A short video is reported as an invalid URL before the age check. */
  lemma TooShortBeforeAge(c: CheckerConfig, m: VideoMetadata)
    requires c.maxDuration == 0 || m.duration <= c.maxDuration
    requires c.minDuration > 0 && m.duration < c.minDuration
    ensures Policy(c, m).Err? && Policy(c, m).error.InvalidUrl?
  {
  }

  /** With both bounds switched off only the age restriction can reject. */
  lemma UnboundedOnlyAge(m: VideoMetadata)
    ensures Policy(CheckerConfig(5000, 0, 0), m) == (if m.ageRestricted then Err(VideoAgeRestricted) else Ok(m))
  {
  }

  /** The default bounds reject anything over four hours. */
  lemma DefaultRejectsOverFourHours(m: VideoMetadata)
    requires m.duration > 14400
    ensures Policy(DefaultCheckerConfig(), m) == Err(VideoTooLong(m.duration, 14400))
  {
  }

  /** What running the fetch tool produced. */
  datatype FetchOutcome =
    | TimedOut
    | SpawnFailed(io: string)
    | Exited(success: bool, stdout: string, stderr: string)

  /** The result of decoding the tool's JSON output. */
  datatype Decoded = Decoded(metadata: VideoMetadata) | Malformed(reason: string)

  /** The error of a failed fetch, read from the lower-cased error output; the
      first matching rule wins. `newId` is the new id the program generates. */
  function FetchFailure(stderr: string, newId: Id): (e: ExtractionError)
    ensures e.VideoPrivate? || e.VideoDeleted? || e.VideoAgeRestricted? ||
            e.VideoRegionLocked? || e == VideoUnavailable(newId)
  {
    var s := Lower(stderr);
    if Contains(s, "private video") then VideoPrivate
    else if Contains(s, "deleted") || Contains(s, "unavailable") || Contains(s, "not found") then VideoDeleted
    else if Contains(s, "age") || Contains(s, "sign in") || Contains(s, "age-gate") then VideoAgeRestricted
    else if Contains(s, "region") || Contains(s, "geo") || Contains(s, "country") then VideoRegionLocked
    else VideoUnavailable(newId)
  }

  /** The first rule wins: "private video" anywhere, in any case, means private. */
  lemma PrivateWins(stderr: string, newId: Id)
    requires Contains(Lower(stderr), "private video")
    ensures FetchFailure(stderr, newId) == VideoPrivate
  {
  }

  /** A deletion notice is reported as deleted unless it also says "private video". */
  lemma DeletedUnlessPrivate(stderr: string, newId: Id)
    requires !Contains(Lower(stderr), "private video")
    requires Contains(Lower(stderr), "deleted")
    ensures FetchFailure(stderr, newId) == VideoDeleted
  {
  }

  /** Text that matches no rule is reported as unavailable under the new id. */
  lemma UnmatchedIsUnavailable(stderr: string, newId: Id)
    requires var s := Lower(stderr);
      !Contains(s, "private video") && !Contains(s, "deleted") && !Contains(s, "unavailable") &&
      !Contains(s, "not found") && !Contains(s, "age") && !Contains(s, "sign in") &&
      !Contains(s, "region") && !Contains(s, "geo") && !Contains(s, "country")
    ensures FetchFailure(stderr, newId) == VideoUnavailable(newId)
  {
    AgeGateSubsumed(Lower(stderr));
  }

  /** The "age-gate" rule can never be the one that fires: any text containing
      "age-gate" already contains "age". */
  lemma AgeGateSubsumed(s: string)
    ensures Contains(s, "age-gate") ==> Contains(s, "age")
  {
    if Contains(s, "age-gate") {
      var i :| 0 <= i <= |s| && OccursAt(s, "age-gate", i);
      assert s[i..i + 3] == s[i..i + 8][..3];
      assert OccursAt(s, "age", i);
    }
  }

  /** `fetch_metadata`: the tool's outcome turned into metadata or an error. */
  function FetchMetadata(c: CheckerConfig, out: FetchOutcome, decode: string -> Decoded, newId: Id): (r: Result<VideoMetadata>)
    ensures out.TimedOut? ==> r == Err(NetworkTimeout(c.timeoutMs))
    ensures out.Exited? && !out.success ==> r == Err(FetchFailure(out.stderr, newId))
    ensures r.Ok? ==> out.Exited? && out.success && decode(out.stdout) == Decoded(r.value)
  {
    match out
    case TimedOut => Err(NetworkTimeout(c.timeoutMs))
    case SpawnFailed(io) => Err(ExternalDependencyUnavailable("yt-dlp execution failed: " + io))
    case Exited(success, stdout, stderr) =>
      if !success then Err(FetchFailure(stderr, newId))
      else match decode(stdout)
        case Decoded(m) => Ok(m)
        case Malformed(why) => Err(InternalError("Failed to parse yt-dlp JSON output: " + why))
  }

  /** `check_availability`: the fetch's error, or the policy's verdict on its metadata. */
  function CheckAvailability(c: CheckerConfig, out: FetchOutcome, decode: string -> Decoded, newId: Id): Result<VideoMetadata>
  {
    var fetched := FetchMetadata(c, out, decode, newId);
    if fetched.Err? then Err(fetched.error) else Policy(c, fetched.value)
  }

  /** Accepted metadata is what the tool reported, and it satisfies the policy. */
  lemma AvailableMeansFetchedAndAllowed(c: CheckerConfig, out: FetchOutcome, decode: string -> Decoded, newId: Id)
    requires CheckAvailability(c, out, decode, newId).Ok?
    ensures var m := CheckAvailability(c, out, decode, newId).value;
      out.Exited? && out.success && decode(out.stdout) == Decoded(m) &&
      (c.maxDuration == 0 || m.duration <= c.maxDuration) &&
      (c.minDuration == 0 || m.duration >= c.minDuration) && !m.ageRestricted
  {
    var fetched := FetchMetadata(c, out, decode, newId);
    PolicyAcceptsIff(c, fetched.value);
  }

  /** `check_status`: a coarser verdict, read from the fetch error's own text;
      it never fails. */
  function CheckStatus(fetched: Result<VideoMetadata>, f: Formats): (r: AvailabilityStatus)
    ensures fetched.Ok? ==> (r == AgeRestricted <==> fetched.value.ageRestricted)
    ensures fetched.Ok? ==> (r == Available <==> !fetched.value.ageRestricted)
  {
    match fetched
    case Ok(m) => if m.ageRestricted then AgeRestricted else Available
    case Err(e) => StatusOfText(Lower(Display(e, f)))
  }

  /** The classification of `check_status` on lower-cased error text. */
  function StatusOfText(msg: string): (r: AvailabilityStatus)
    ensures r.Unavailable? ==> r.reason == msg
    ensures r != Available
  {
    if Contains(msg, "private") then Private
    else if Contains(msg, "deleted") || Contains(msg, "not found") || Contains(msg, "unavailable") then Deleted
    else if Contains(msg, "age") || Contains(msg, "sign in") then AgeRestricted
    else if Contains(msg, "region") || Contains(msg, "country") then RegionLocked
    else Unavailable(msg)
  }

  /** The status classification also lets the earliest rule win: a text
      naming both privacy and deletion is private, and a deletion notice is
      never read as an age restriction. */
  lemma StatusFirstMatch(msg: string)
    ensures Contains(msg, "private") ==> StatusOfText(msg) == Private
    ensures !Contains(msg, "private") && Contains(msg, "deleted") ==> StatusOfText(msg) == Deleted
    ensures StatusOfText(msg) == AgeRestricted ==> Contains(msg, "age") || Contains(msg, "sign in")
  {
  }
}
