// The pipeline's single error type, its category mapping, its one-line
// Display text and its longer user-facing message.

module Errors {
  import opened Strings
  import opened Formatting

  /** Typed identifiers are opaque; their Display is the UUID text. */
  datatype Id = Id(uuid: string)

  /** `DomainResult<T>`. */
  datatype Result<T> = Ok(value: T) | Err(error: ExtractionError)

  datatype ErrorCategory =
    | Configuration | Network | FileSystem | ExternalDependency
    | Processing | Validation | Memory | Unknown

  function CategoryName(c: ErrorCategory): (r: string)
    ensures c == FileSystem ==> r == "File System"
    ensures c == ExternalDependency ==> r == "External Dependency"
  {
    match c
    case Configuration => "Configuration"
    case Network => "Network"
    case FileSystem => "File System"
    case ExternalDependency => "External Dependency"
    case Processing => "Processing"
    case Validation => "Validation"
    case Memory => "Memory"
    case Unknown => "Unknown"
  }

  /** Counts are unsigned machine integers in the program; here they are naturals.
      `FileSystemError` is raised throughout the program but missing from the
      enum's declaration; the model adds it. */
  datatype ExtractionError =
    | InvalidUrl(url: string)
    | VideoUnavailable(videoId: Id)
    | InvalidConfig(msg: string)
    | DownloadFailed(retries: nat, reason: string)
    | FrameExtractionFailed(reason: string)
    | HashComputationFailed(frameId: Id)
    | OcrFailed(slideId: Id, reason: string)
    | MarkdownGenerationFailed(reason: string)
    | NoUniqueSlidesFound
    | OutputDirectoryNotWritable(dir: string)
    | InsufficientMemory(requiredMb: nat)
    | NetworkTimeout(millis: nat)
    | ExternalDependencyUnavailable(dep: string)
    | OutputDirectoryNotFound(dir: string)
    | ParentDirectoryNotFound(dir: string)
    | InsufficientDiskSpace(requiredMb: nat, availableMb: nat)
    | PermissionDenied(resource: string)
    | DependencyCheckFailed(name: string, reason: string)
    | DependencyVersionMismatch(name: string, required: string, found: string)
    | MemoryThresholdExceeded(used: nat, threshold: nat)
    | VideoTooLong(duration: nat, max: nat)
    | VideoAgeRestricted
    | VideoRegionLocked
    | VideoDeleted
    | VideoPrivate
    | SessionNotFound(sessionId: Id)
    | SessionRecoveryFailed(reason: string)
    | CorruptFrame(timestamp: real)
    | TooManyCorruptFrames(count: nat, max: nat)
    | LowOcrConfidence(slideId: Id, ocrConfidence: real, ocrThreshold: real)
    | TemplateError(reason: string)
    | InternalError(msg: string)
    | FileSystemError(msg: string)

  /** The category of each variant, stated per category as the set of
      variants that fall into it. */
  function Category(e: ExtractionError): (r: ErrorCategory)
    ensures r == Network <==> e.VideoUnavailable? || e.DownloadFailed? || e.NetworkTimeout?
    ensures r == Configuration <==> e.InvalidConfig? || e.TemplateError?
    ensures r == Memory <==> e.InsufficientMemory? || e.MemoryThresholdExceeded?
    ensures r == ExternalDependency <==>
      e.ExternalDependencyUnavailable? || e.DependencyCheckFailed? || e.DependencyVersionMismatch?
    ensures r == FileSystem <==>
      e.OutputDirectoryNotWritable? || e.OutputDirectoryNotFound? || e.ParentDirectoryNotFound? ||
      e.InsufficientDiskSpace? || e.PermissionDenied? || e.FileSystemError?
  {
    match e
    case InvalidUrl(_) => Validation
    case VideoUnavailable(_) => Network
    case InvalidConfig(_) => Configuration
    case DownloadFailed(_, _) => Network
    case FrameExtractionFailed(_) => Processing
    case HashComputationFailed(_) => Processing
    case OcrFailed(_, _) => Processing
    case MarkdownGenerationFailed(_) => Processing
    case NoUniqueSlidesFound => Processing
    case OutputDirectoryNotWritable(_) => FileSystem
    case InsufficientMemory(_) => Memory
    case NetworkTimeout(_) => Network
    case ExternalDependencyUnavailable(_) => ExternalDependency
    case OutputDirectoryNotFound(_) => FileSystem
    case ParentDirectoryNotFound(_) => FileSystem
    case InsufficientDiskSpace(_, _) => FileSystem
    case PermissionDenied(_) => FileSystem
    case DependencyCheckFailed(_, _) => ExternalDependency
    case DependencyVersionMismatch(_, _, _) => ExternalDependency
    case MemoryThresholdExceeded(_, _) => Memory
    case VideoTooLong(_, _) => Validation
    case VideoAgeRestricted => Validation
    case VideoRegionLocked => Validation
    case VideoDeleted => Validation
    case VideoPrivate => Validation
    case SessionNotFound(_) => Processing
    case SessionRecoveryFailed(_) => Processing
    case CorruptFrame(_) => Processing
    case TooManyCorruptFrames(_, _) => Processing
    case LowOcrConfidence(_, _, _) => Processing
    case TemplateError(_) => Configuration
    case InternalError(_) => Unknown
    case FileSystemError(_) => FileSystem
  }

  /** Validation errors are exactly the rejected URL and the video-policy verdicts
      (too long, age-restricted, region-locked, deleted, private). */
  lemma ValidationCategoryIff(e: ExtractionError)
    ensures Category(e) == Validation <==>
      (e.InvalidUrl? || e.VideoTooLong? || e.VideoAgeRestricted? ||
       e.VideoRegionLocked? || e.VideoDeleted? || e.VideoPrivate?)
  {
  }

  /** Only the catch-all internal error is uncategorised. */
  lemma UnknownCategoryIff(e: ExtractionError)
    ensures Category(e) == Unknown <==> e.InternalError?
  {
  }

  /** The characters Rust's `{:?}` writes as an escape sequence rather than as
      themselves (within ASCII). */
  predicate Escaped(c: char)
  {
    c == '"' || c == '\\' || c as int < 32 || c as int == 127
  }

  predicate NoEscapes(s: string)
  {
    forall i :: 0 <= i < |s| ==> !Escaped(s[i])
  }

  /** Lower-case hexadecimal of a code below 128, without leading zeros. */
  function LowerHex(n: nat): (r: string)
    requires n < 128
    ensures 1 <= |r| <= 2 && forall i :: 0 <= i < |r| ==> r[i] in "0123456789abcdef"
  {
    var digits := "0123456789abcdef";
    if n < 16 then [digits[n]] else [digits[n / 16], digits[n % 16]]
  }

  /** `char::escape_debug` for ASCII: the named escapes, `\u{..}` for the other
      control characters, and the character itself otherwise. */
  function Escape(c: char): (r: string)
    ensures !Escaped(c) ==> r == [c]
    ensures Escaped(c) ==> |r| >= 2 && r[0] == '\\'
    ensures '\n' !in r
  {
    if c == '"' then "\\\"" else if c == '\\' then "\\\\"
    else if c == '\n' then "\\n" else if c == '\r' then "\\r"
    else if c == '\t' then "\\t" else if c == '\0' then "\\0"
    else if Escaped(c) then "\\u{" + LowerHex(c as int) + "}"
    else [c]
  }

  function DebugBody(s: string): (r: string)
    ensures NoEscapes(s) ==> r == s
    ensures '\n' !in r
  {
    if s == [] then "" else Escape(s[0]) + DebugBody(s[1..])
  }

  /** Rust's `{:?}` of a string: quoted, with escapes; a string with nothing
      to escape is only quoted, and the result never breaks the line. */
  function DebugString(s: string): (r: string)
    ensures |r| >= 2 && r[0] == '"' && r[|r| - 1] == '"'
    ensures NoEscapes(s) ==> r == "\"" + s + "\""
    ensures '\n' !in r
  {
    "\"" + DebugBody(s) + "\""
  }

  /** The free-text arguments a variant carries (identifiers and numbers
      aside), in order. */
  function FreeText(e: ExtractionError): seq<string>
  {
    match e
    case DependencyCheckFailed(n, r) => [n, r]
    case DependencyVersionMismatch(n, req, found) => [n, req, found]
    case _ => if TextArgument(e).Some? then [TextArgument(e).value] else []
  }

  lemma NotWritableText(d: string)
    ensures var r := "Output directory not writable: " + DebugString(d);
      EndsWith(r, DebugString(d)) && (NoEscapes(d) ==> Contains(r, d))
  {
    ContainsSuffix("Output directory not writable: ", DebugString(d));
    if NoEscapes(d) {
      ContainsMiddle("\"", d, "\"");
      ContainsShift("Output directory not writable: ", DebugString(d), d);
    }
  }

  /** The one-line Display text of each variant. */
  function Display(e: ExtractionError, f: Formats): string
  {
    match e
    case InvalidUrl(u) => "Invalid YouTube URL: " + u
    case VideoUnavailable(id) => "Video ID '" + id.uuid + "' is unavailable"
    case InvalidConfig(m) => "Invalid configuration: " + m
    case DownloadFailed(n, r) => "Download failed after " + NatToString(n) + " retries: " + r
    case FrameExtractionFailed(r) => "Frame extraction failed: " + r
    case HashComputationFailed(id) => "Hash computation failed for frame " + id.uuid
    case OcrFailed(id, r) => "OCR failed for slide " + id.uuid + ": " + r
    case MarkdownGenerationFailed(r) => "Markdown generation failed: " + r
    case NoUniqueSlidesFound => "No unique slides found"
    case OutputDirectoryNotWritable(d) => "Output directory not writable: " + DebugString(d)
    case InsufficientMemory(mb) => "Insufficient memory: required " + NatToString(mb) + "MB"
    case NetworkTimeout(ms) => "Network timeout after " + f.duration(ms)
    case ExternalDependencyUnavailable(d) => "External dependency unavailable: " + d
    case OutputDirectoryNotFound(d) => "Output directory does not exist: " + d
    case ParentDirectoryNotFound(d) => "Parent directory does not exist: " + d
    case InsufficientDiskSpace(req, avail) =>
      "Insufficient disk space: required " + NatToString(req) + "MB, available " + NatToString(avail) + "MB"
    case PermissionDenied(r) => "Permission denied: " + r
    case DependencyCheckFailed(n, r) => "External dependency check failed: " + n + " - " + r
    case DependencyVersionMismatch(n, req, found) =>
      "External dependency version mismatch: " + n + " - required " + req + ", found " + found
    case MemoryThresholdExceeded(used, t) =>
      "Memory threshold exceeded: using " + NatToString(used) + "MB of " + NatToString(t) + "MB limit"
    case VideoTooLong(d, m) =>
      "Video too long: " + NatToString(d) + " seconds (maximum: " + NatToString(m) + " seconds)"
    case VideoAgeRestricted => "Video age-restricted: cannot download age-restricted content"
    case VideoRegionLocked => "Video region-locked: not available in your region"
    case VideoDeleted => "Video deleted: the video has been removed by the uploader"
    case VideoPrivate => "Video private: this video is not publicly available"
    case SessionNotFound(id) => "Session not found: " + id.uuid
    case SessionRecoveryFailed(r) => "Session recovery failed: " + r
    case CorruptFrame(t) => "Corrupt frame at timestamp " + f.plain(t) + "s - skipping"
    case TooManyCorruptFrames(c, m) =>
      "Too many corrupt frames: " + NatToString(c) + " frames skipped (maximum: " + NatToString(m) + ")"
    case LowOcrConfidence(id, c, t) =>
      "OCR confidence too low for slide " + id.uuid + ": " + f.plain(c) + " (threshold: " + f.plain(t) + ")"
    case TemplateError(r) => "Template error: " + r
    case InternalError(m) => "Internal error: " + m
    case FileSystemError(m) => "File system error: " + m
  }

  /** A message carries every free-text argument of the error verbatim, except
      that the unwritable directory appears in its `{:?}` form, which is the
      directory itself between quotes when nothing in it needs escaping; and
      it ends with the quoted argument where there is one. */
  ghost predicate NamesArguments(e: ExtractionError, r: string)
  {
    (forall t | t in FreeText(e) && !e.OutputDirectoryNotWritable? :: Contains(r, t)) &&
    (TextArgument(e).Some? && !e.OutputDirectoryNotWritable? ==> EndsWith(r, TextArgument(e).value)) &&
    (e.OutputDirectoryNotWritable? ==>
      EndsWith(r, DebugString(e.dir)) && (NoEscapes(e.dir) ==> Contains(r, e.dir)))
  }

  /** The Display text names the error's free-text arguments. */
  lemma DisplayNamesArguments(e: ExtractionError, f: Formats)
    ensures forall t | t in FreeText(e) && !e.OutputDirectoryNotWritable? :: Contains(Display(e, f), t)
    ensures TextArgument(e).Some? && !e.OutputDirectoryNotWritable? ==>
      EndsWith(Display(e, f), TextArgument(e).value)
    ensures e.OutputDirectoryNotWritable? ==>
      EndsWith(Display(e, f), DebugString(e.dir)) && (NoEscapes(e.dir) ==> Contains(Display(e, f), e.dir))
  {
    if e.InvalidUrl? || e.InvalidConfig? {
      DisplayNamesInput(e, f);
    } else if e.PermissionDenied? || e.FileSystemError? {
      DisplayNamesResource(e, f);
    } else if e.ExternalDependencyUnavailable? || e.OutputDirectoryNotFound? || e.ParentDirectoryNotFound? ||
              e.OutputDirectoryNotWritable? {
      DisplayNamesPath(e, f);
    } else if e.DownloadFailed? || e.FrameExtractionFailed? || e.OcrFailed? || e.MarkdownGenerationFailed? {
      DisplayNamesStep(e, f);
    } else if e.SessionRecoveryFailed? || e.TemplateError? || e.InternalError? {
      DisplayNamesReason(e, f);
    } else if e.DependencyCheckFailed? || e.DependencyVersionMismatch? {
      DisplayNamesDependency(e, f);
    }
  }

  lemma DisplayNamesInput(e: ExtractionError, f: Formats)
    requires e.InvalidUrl? || e.InvalidConfig?
    ensures NamesArguments(e, Display(e, f))
  {
    match e
    case InvalidUrl(u) => ContainsSuffix("Invalid YouTube URL: ", u);
    case InvalidConfig(m) => ContainsSuffix("Invalid configuration: ", m);
  }

  lemma DisplayNamesResource(e: ExtractionError, f: Formats)
    requires e.PermissionDenied? || e.FileSystemError?
    ensures NamesArguments(e, Display(e, f))
  {
    match e
    case PermissionDenied(r) => ContainsSuffix("Permission denied: ", r);
    case FileSystemError(m) => ContainsSuffix("File system error: ", m);
  }

  lemma DisplayNamesPath(e: ExtractionError, f: Formats)
    requires e.ExternalDependencyUnavailable? || e.OutputDirectoryNotFound? || e.ParentDirectoryNotFound? ||
             e.OutputDirectoryNotWritable?
    ensures NamesArguments(e, Display(e, f))
  {
    match e
    case ExternalDependencyUnavailable(d) => ContainsSuffix("External dependency unavailable: ", d);
    case OutputDirectoryNotFound(d) => ContainsSuffix("Output directory does not exist: ", d);
    case ParentDirectoryNotFound(d) => ContainsSuffix("Parent directory does not exist: ", d);
    case OutputDirectoryNotWritable(d) => NotWritableText(d);
  }

  lemma DisplayNamesStep(e: ExtractionError, f: Formats)
    requires e.DownloadFailed? || e.FrameExtractionFailed? || e.OcrFailed? || e.MarkdownGenerationFailed?
    ensures NamesArguments(e, Display(e, f))
  {
    match e
    case DownloadFailed(n, r) => ContainsSuffix("Download failed after " + NatToString(n) + " retries: ", r);
    case FrameExtractionFailed(r) => ContainsSuffix("Frame extraction failed: ", r);
    case OcrFailed(id, r) => ContainsSuffix("OCR failed for slide " + id.uuid + ": ", r);
    case MarkdownGenerationFailed(r) => ContainsSuffix("Markdown generation failed: ", r);
  }

  lemma DisplayNamesReason(e: ExtractionError, f: Formats)
    requires e.SessionRecoveryFailed? || e.TemplateError? || e.InternalError?
    ensures NamesArguments(e, Display(e, f))
  {
    match e
    case SessionRecoveryFailed(r) => ContainsSuffix("Session recovery failed: ", r);
    case TemplateError(r) => ContainsSuffix("Template error: ", r);
    case InternalError(m) => ContainsSuffix("Internal error: ", m);
  }

  lemma DisplayNamesDependency(e: ExtractionError, f: Formats)
    requires e.DependencyCheckFailed? || e.DependencyVersionMismatch?
    ensures NamesArguments(e, Display(e, f))
  {
    match e
    case DependencyCheckFailed(n, r) => ContainsBoth("External dependency check failed: ", n, " - ", r);
    case DependencyVersionMismatch(n, req, found) =>
      ContainsAllThree("External dependency version mismatch: ", n, " - required ", req, ", found ", found);
  }

  /** `short_message` is the Display text: it names every string argument of
      the error. */
  function ShortMessage(e: ExtractionError, f: Formats): (r: string)
    ensures r == Display(e, f)
    ensures forall t | t in FreeText(e) && !e.OutputDirectoryNotWritable? :: Contains(r, t)
    ensures TextArgument(e).Some? && !e.OutputDirectoryNotWritable? ==> EndsWith(r, TextArgument(e).value)
    ensures e.OutputDirectoryNotWritable? ==>
      EndsWith(r, DebugString(e.dir)) && (NoEscapes(e.dir) ==> Contains(r, e.dir))
  {
    DisplayNamesArguments(e, f);
    Display(e, f)
  }

  /** The Display texts of an invalid URL and of a failed download, as the
      program's own examples give them. */
  lemma DisplayExamples(u: string, r: string, f: Formats)
    ensures ShortMessage(InvalidUrl(u), f) == "Invalid YouTube URL: " + u
    ensures ShortMessage(DownloadFailed(3, r), f) == "Download failed after 3 retries: " + r
  {
    assert NatToString(3) == "3";
  }

  /** The longer message with guidance on what to do next: the quoting
      variants put the caller's text between a fixed prefix and suffix, the
      others have a text of their own. */
  function UserMessage(e: ExtractionError, f: Formats): (r: string)
    ensures TextArgument(e).Some? ==> Contains(r, TextArgument(e).value) && EndsWith(r, QuoteFrame(e).1)
  {
    match TextArgument(e)
    case Some(t) =>
      ContainsMiddle(QuoteFrame(e).0, t, QuoteFrame(e).1);
      ContainsSuffix(QuoteFrame(e).0 + t, QuoteFrame(e).1);
      QuoteFrame(e).0 + t + QuoteFrame(e).1
    case None => PlainGuidance(e, f)
  }

  /** The failed-check guidance names the dependency as well as the reason. */
  lemma UserMessageNamesDependency(n: string, r: string, f: Formats)
    ensures Contains(UserMessage(DependencyCheckFailed(n, r), f), n)
  {
    QuoteNamesDependency(n, r);
  }

  lemma QuoteNamesDependency(n: string, r: string)
    ensures var q := QuoteFrame(DependencyCheckFailed(n, r));
      Contains(q.0 + r + q.1, n)
  {
    var q := QuoteFrame(DependencyCheckFailed(n, r));
    ContainsMiddle("External dependency check failed for '", n, "': ");
    ContainsGrow(q.0, n, r);
    ContainsGrow(q.0 + r, n, q.1);
  }

  /** The version-mismatch guidance names the dependency and both versions. */
  lemma UserMessageNamesVersions(n: string, req: string, found: string, f: Formats)
    ensures var m := UserMessage(DependencyVersionMismatch(n, req, found), f);
      Contains(m, n) && Contains(m, req) && Contains(m, found)
  {
    var text := "External dependency version mismatch for '" + n + "': required " + req + ", found " + found;
    var advice := ". Please install the required version of the dependency.";
    ContainsAllThree("External dependency version mismatch for '", n, "': required ", req, ", found ", found);
    ContainsGrow(text, n, advice);
    ContainsGrow(text, req, advice);
    ContainsGrow(text, found, advice);
  }

  /** The text around the quoted argument of the variants that quote one. */
  function QuoteFrame(e: ExtractionError): (string, string)
    requires TextArgument(e).Some?
  {
    match e
    case InvalidUrl(_) =>
      ("The YouTube URL '",
       "' is invalid. Please ensure you provide a valid YouTube URL " +
      "(e.g., https://www.youtube.com/watch?v=VIDEO_ID or https://youtu.be/VIDEO_ID).")
    case InvalidConfig(_) =>
      ("Invalid configuration: ",
       ". Please check your configuration parameters and try again.")
    case DownloadFailed(n, _) =>
      ("Failed to download the video after " + NatToString(n) + " retries. Reason: ",
       ". Please check your internet connection and try again. If the problem persists, " +
      "the video may be unavailable or region-locked.")
    case FrameExtractionFailed(_) =>
      ("Failed to extract frames from the video: ",
       ". This may be due to a corrupted video file or an issue with FFmpeg. " +
      "Please ensure FFmpeg is properly installed and try again.")
    case OcrFailed(id, _) =>
      ("OCR failed for slide " + id.uuid + ": ",
       ". Please ensure Tesseract is properly installed and the required language data " +
      "is available. The slide image will still be included in the output.")
    case MarkdownGenerationFailed(_) =>
      ("Failed to generate Markdown document: ",
       ". Please check the output directory permissions and try again.")
    case OutputDirectoryNotWritable(_) =>
      ("Cannot write to output directory '",
       "'. Please check that you have write " +
      "permissions for this directory or choose a different output directory.")
    case ExternalDependencyUnavailable(_) =>
      ("External dependency '",
       "' is not available. Please ensure it is installed and " +
      "accessible in your system PATH. See the documentation for installation instructions.")
    case OutputDirectoryNotFound(_) =>
      ("Output directory '",
       "' does not exist. Please create this directory or provide " +
      "a valid output path.")
    case ParentDirectoryNotFound(_) =>
      ("Parent directory '",
       "' does not exist. Cannot create output directory. " +
      "Please ensure the parent directory exists or provide a valid output path.")
    case PermissionDenied(_) =>
      ("Permission denied: ",
       ". Please ensure you have the necessary permissions to " +
      "access this resource or try running with elevated privileges.")
    case DependencyCheckFailed(n, _) =>
      ("External dependency check failed for '" + n + "': ",
       ". Please ensure the dependency " +
      "is properly installed and configured. See the documentation for troubleshooting steps.")
    case SessionRecoveryFailed(_) =>
      ("Failed to recover session: ",
       ". Please start a new extraction session.")
    case TemplateError(_) =>
      ("Template error: ",
       ". Please check your template syntax and ensure it's valid.")
    case InternalError(_) =>
      ("An internal error occurred: ",
       ". This is likely a bug. Please report this issue " +
      "with details about what you were doing when it happened.")
    case FileSystemError(_) =>
      ("File system error: ",
       "")
  }

  /** The guidance of the variants that quote no caller text. */
  function PlainGuidance(e: ExtractionError, f: Formats): string
    requires TextArgument(e).None?
  {
    match e
    case VideoUnavailable(id) =>
      "The video with ID '" + id.uuid + "' is unavailable. This could be because the video has " +
      "been deleted, is private, or has been made unavailable by the uploader."
    case HashComputationFailed(id) =>
      "Failed to compute hash for frame " + id.uuid + ": Image processing error. " +
      "This is an internal error. Please report this issue if it persists."
    case NoUniqueSlidesFound =>
      "No unique slides were found in the video. This could happen if: " +
      "1) The video doesn't contain slides, 2) The similarity threshold is too high, " +
      "or 3) The frame interval is too large. Try lowering the similarity threshold " +
      "or reducing the frame extraction interval."
    case InsufficientMemory(mb) =>
      "Insufficient memory available. The operation requires approximately " + NatToString(mb) +
      "MB of memory. Suggestions: 1) Process a shorter video, 2) Increase the frame extraction interval, " +
      "or 3) Close other applications to free up memory."
    case NetworkTimeout(ms) =>
      "Network timeout after " + f.duration(ms) + ". Please check your internet connection and try again. " +
      "If you're on a slow connection, consider increasing the timeout duration."
    case InsufficientDiskSpace(req, avail) =>
      "Insufficient disk space. Required: " + NatToString(req) + "MB, Available: " + NatToString(avail) +
      "MB. Please free up disk space or choose a different output directory."
    case DependencyVersionMismatch(n, req, found) =>
      "External dependency version mismatch for '" + n + "': required " + req + ", found " + found +
      ". Please install the required version of the dependency."
    case MemoryThresholdExceeded(used, t) =>
      "Memory usage exceeded threshold: using " + NatToString(used) + "MB of " + NatToString(t) +
      "MB limit. Suggestions: 1) Process a shorter video, 2) Increase the frame extraction interval, " +
      "or 3) Increase the memory threshold in configuration."
    case VideoTooLong(d, m) =>
      "Video is too long: " + NatToString(d) + " seconds (maximum: " + NatToString(m) + " seconds). " +
      "Please process a shorter video or adjust the maximum duration setting."
    case VideoAgeRestricted =>
      "The video is age-restricted and cannot be downloaded. Age-restricted content " +
      "is not supported. Please try a different video."
    case VideoRegionLocked =>
      "The video is region-locked and not available in your current region. " +
      "Please try a different video or use a VPN if applicable."
    case VideoDeleted =>
      "The video has been deleted by the uploader and is no longer available. " +
      "Please try a different video."
    case VideoPrivate =>
      "The video is private and not publicly available. Please try a different video " +
      "or ensure you have access to the private content."
    case SessionNotFound(id) =>
      "Session '" + id.uuid + "' not found. The session may have expired or the ID is incorrect."
    case CorruptFrame(t) =>
      "Corrupt frame detected at " + f.plain(t) + "s. This frame will be skipped. " +
      "If many frames are corrupt, the video file may be damaged."
    case TooManyCorruptFrames(c, m) =>
      "Too many corrupt frames: " + NatToString(c) + " frames skipped (maximum allowed: " + NatToString(m) +
      "). The video file may be damaged. Please try a different video or re-download."
    case LowOcrConfidence(id, c, t) =>
      "Low OCR confidence for slide " + id.uuid + ": " + f.fixed2(c * 100.0) + "% (threshold: " +
      f.fixed2(t * 100.0) + "%). The extracted text may be inaccurate. " +
      "This is indicated in the output with a warning."
  }

  /** The text argument a variant carries, if it carries exactly one that is
      free text supplied by the caller. */
  function TextArgument(e: ExtractionError): Option<string>
  {
    match e
    case InvalidUrl(u) => Some(u)
    case InvalidConfig(m) => Some(m)
    case DownloadFailed(_, r) => Some(r)
    case FrameExtractionFailed(r) => Some(r)
    case OcrFailed(_, r) => Some(r)
    case MarkdownGenerationFailed(r) => Some(r)
    case OutputDirectoryNotWritable(d) => Some(d)
    case ExternalDependencyUnavailable(d) => Some(d)
    case OutputDirectoryNotFound(d) => Some(d)
    case ParentDirectoryNotFound(d) => Some(d)
    case PermissionDenied(r) => Some(r)
    case DependencyCheckFailed(_, r) => Some(r)
    case SessionRecoveryFailed(r) => Some(r)
    case TemplateError(r) => Some(r)
    case InternalError(m) => Some(m)
    case FileSystemError(m) => Some(m)
    case _ => None
  }
}
