// The frame context's commands, events and handlers: frame-count arithmetic,
// parameter validation, frame naming and the straight-line handlers that
// turn commands into events. Whether a file exists is asked of a predicate
// passed in by the caller.

module Frames {
  import opened Strings
  import opened Errors
  import Files

  /** Width of the program's `u32` results. */
  const U32: nat := 0x1_0000_0000

  datatype FrameFormat = Jpeg | Png
  datatype HashAlgorithm = Average | Difference | Perceptual

  /** `{:?}` of the two enums. */
  function FormatName(f: FrameFormat): string
  {
    match f
    case Jpeg => "Jpeg"
    case Png => "Png"
  }

  function AlgorithmName(a: HashAlgorithm): string
  {
    match a
    case Average => "Average"
    case Difference => "Difference"
    case Perceptual => "Perceptual"
  }

  datatype ExtractFramesCommand = ExtractFramesCommand(
    videoId: Id, videoPath: string, outputDir: string, intervalSecs: nat,
    outputFormat: FrameFormat, jpegQuality: Option<nat>)

  datatype ComputeHashCommand = ComputeHashCommand(frameId: Id, framePath: string, algorithm: HashAlgorithm)

  datatype HandleFrameErrorCommand = HandleFrameErrorCommand(
    frameId: Id, error: string, timestamp: real, skippedCount: nat, maxSkipped: nat)

  datatype OptimizeStorageCommand = OptimizeStorageCommand(
    videoId: Id, framesDir: string, compress: bool, compressionQuality: Option<nat>, cleanupTemp: bool)

  datatype FramesExtracted = FramesExtracted(
    videoId: Id, totalFrames: nat, framesDir: string, intervalSecs: nat, format: string)

  datatype FrameExtracted = FrameExtracted(
    frameId: Id, videoId: Id, frameNumber: nat, timestamp: real, framePath: string, width: nat, height: nat)

  datatype HashComputed = HashComputed(frameId: Id, hash: string, algorithm: string, computationTimeMs: nat)

  datatype FrameErrorOccurred = FrameErrorOccurred(
    frameId: Id, error: string, timestamp: real, continueExtraction: bool)

  datatype StorageOptimized = StorageOptimized(
    videoId: Id, originalSizeBytes: nat, optimizedSizeBytes: nat, frameCount: nat, spaceSavedPercent: real)

  /** Smallest k with k * i >= d. */
  function CeilDiv(d: nat, i: nat): nat
    requires i > 0
  {
    (d + i - 1) / i
  }

  /** What `calculate_total_frames` computes, with its `u32` arithmetic: the
      quotient is truncated to 32 bits and the "last frame" increment wraps. */
  function TotalFrames(durationSec: nat, intervalSecs: nat): (r: nat)
    ensures r < U32
  {
    if intervalSecs == 0 then 0
    else
      var q := (durationSec / intervalSecs) % U32;
      var c := if durationSec % intervalSecs != 0 then (q + 1) % U32 else q;
      if c < 1 then 1 else c
  }

  /** `calculate_total_frames`. */
  method CalculateTotalFrames(durationSec: nat, intervalSecs: nat) returns (count: nat)
    ensures count == TotalFrames(durationSec, intervalSecs)
  {
    if intervalSecs == 0 {
      return 0;
    }
    count := (durationSec / intervalSecs) % U32;
    if durationSec % intervalSecs != 0 {
      count := (count + 1) % U32;
    }
    if count < 1 {
      count := 1;
    }
  }

  /** Without overflow the count is the number of intervals needed to cover
      the duration, and at least one. */
  lemma TotalFramesCovers(d: nat, i: nat)
    requires i > 0 && CeilDiv(d, i) < U32
    ensures TotalFrames(d, i) == if CeilDiv(d, i) < 1 then 1 else CeilDiv(d, i)
    ensures TotalFrames(d, i) * i >= d
    ensures d > 0 ==> (TotalFrames(d, i) - 1) * i < d
  {
    var q, t := d / i, d % i;
    CeilDivCovers(d, i);
    if t == 0 {
      DivUnique(d + i - 1, i, q, i - 1);
      assert q % U32 == q;
    } else {
      DivUnique(d + i - 1, i, q + 1, t - 1);
      assert q % U32 == q && (q + 1) % U32 == q + 1;
    }
  }

  /** The ceiling quotient is the least multiple count reaching `d`. */
  lemma CeilDivCovers(d: nat, i: nat)
    requires i > 0
    ensures CeilDiv(d, i) == if d % i == 0 then d / i else d / i + 1
    ensures CeilDiv(d, i) * i >= d
    ensures d > 0 ==> CeilDiv(d, i) >= 1 && (CeilDiv(d, i) - 1) * i < d
  {
    var q, t := d / i, d % i;
    if t == 0 {
      DivUnique(d + i - 1, i, q, i - 1);
      if d > 0 {
        assert q >= 1;
        assert (q - 1) * i == q * i - i;
      }
    } else {
      DivUnique(d + i - 1, i, q + 1, t - 1);
      assert (q + 1) * i == q * i + i;
    }
  }

  /** Division is determined by quotient and remainder. */
  lemma DivUnique(n: nat, i: nat, q: nat, t: nat)
    requires i > 0 && n == q * i + t && t < i
    ensures n / i == q && n % i == t
  {
    var q', t' := n / i, n % i;
    assert (q' - q) * i == t - t';
    MultipleInWindow(q' - q, i);
  }

  lemma MultipleInWindow(k: int, i: nat)
    requires i > 0 && -(i as int) < k * i < i
    ensures k == 0
  {
    assert k >= 1 ==> k * i >= i;
    assert k <= -1 ==> k * i <= -(i as int);
  }

  lemma TotalFramesExamples()
    ensures TotalFrames(60, 5) == 12 && TotalFrames(65, 5) == 13
    ensures TotalFrames(10, 1) == 10 && TotalFrames(0, 5) == 1
    ensures TotalFrames(60, 0) == 0
  {
  }

  /** `calculate_expected_frames`: one frame per started interval plus the one
      at time 0, truncated to `u32`. */
  function ExpectedFrames(durationSec: nat, intervalSecs: nat): (r: nat)
    ensures r < U32
    ensures intervalSecs == 0 ==> r == 0
  {
    if intervalSecs == 0 then 0 else (durationSec / intervalSecs + 1) % U32
  }

  /** The two counts differ: for a positive duration that is a whole number of
      intervals the expected count is one more than the total count, and
      otherwise the two agree. */
  lemma ExpectedVersusTotal(d: nat, i: nat)
    requires i > 0 && d / i + 1 < U32
    ensures d > 0 && d % i == 0 ==> ExpectedFrames(d, i) == TotalFrames(d, i) + 1
    ensures d % i != 0 ==> ExpectedFrames(d, i) == TotalFrames(d, i)
    ensures d == 0 ==> ExpectedFrames(d, i) == TotalFrames(d, i)
  {
    if d > 0 && d % i == 0 {
      assert d / i >= 1 by {
        assert d == (d / i) * i;
      }
    }
  }

  lemma ExpectedFramesExamples()
    ensures ExpectedFrames(60, 5) == 13 && ExpectedFrames(65, 5) == 14 && ExpectedFrames(10, 1) == 11
  {
  }

  /** `handle_extract_frames`: a zero interval is refused before the video file
      is looked at. */
  function HandleExtractFrames(cmd: ExtractFramesCommand, durationSec: nat, exists_: string -> bool): (r: Result<FramesExtracted>)
    ensures cmd.intervalSecs == 0 ==> r == Err(InvalidConfig("Frame interval must be greater than 0"))
    ensures cmd.intervalSecs > 0 && !exists_(cmd.videoPath) ==>
      r == Err(FrameExtractionFailed("Video file not found: " + cmd.videoPath))
    ensures r.Ok? <==> cmd.intervalSecs > 0 && exists_(cmd.videoPath)
    ensures r.Ok? ==> r.value.videoId == cmd.videoId && r.value.framesDir == cmd.outputDir &&
                      r.value.intervalSecs == cmd.intervalSecs && r.value.format == FormatName(cmd.outputFormat) &&
                      r.value.totalFrames == TotalFrames(durationSec, cmd.intervalSecs) && r.value.totalFrames >= 1
  {
    if cmd.intervalSecs == 0 then Err(InvalidConfig("Frame interval must be greater than 0"))
    else if !exists_(cmd.videoPath) then Err(FrameExtractionFailed("Video file not found: " + cmd.videoPath))
    else Ok(FramesExtracted(cmd.videoId, TotalFrames(durationSec, cmd.intervalSecs), cmd.outputDir,
                            cmd.intervalSecs, FormatName(cmd.outputFormat)))
  }

  /** `handle_compute_hash`: the handler only checks the file; the hash itself
      is left empty for the infrastructure to fill in. */
  function HandleComputeHash(cmd: ComputeHashCommand, exists_: string -> bool): (r: Result<HashComputed>)
    ensures r.Err? <==> !exists_(cmd.framePath)
    ensures r.Err? ==> r.error == HashComputationFailed(cmd.frameId)
    ensures r.Ok? ==> r.value == HashComputed(cmd.frameId, "", AlgorithmName(cmd.algorithm), 0)
  {
    if !exists_(cmd.framePath) then Err(HashComputationFailed(cmd.frameId))
    else Ok(HashComputed(cmd.frameId, "", AlgorithmName(cmd.algorithm), 0))
  }

  /** `handle_frame_error`: extraction goes on while fewer frames than the
      budget have been skipped. */
  function HandleFrameError(cmd: HandleFrameErrorCommand): (r: Result<FrameErrorOccurred>)
    ensures r.Ok? <==> cmd.skippedCount < cmd.maxSkipped
    ensures r.Err? ==> r.error == TooManyCorruptFrames(cmd.skippedCount, cmd.maxSkipped)
    ensures r.Ok? ==> r.value.continueExtraction && r.value.frameId == cmd.frameId &&
                      r.value.error == cmd.error && r.value.timestamp == cmd.timestamp
  {
    var go := cmd.skippedCount < cmd.maxSkipped;
    if !go then Err(TooManyCorruptFrames(cmd.skippedCount, cmd.maxSkipped))
    else Ok(FrameErrorOccurred(cmd.frameId, cmd.error, cmd.timestamp, go))
  }

  /** `u64::saturating_sub`. */
  function SaturatingSub(a: nat, b: nat): (r: nat)
    ensures r <= a
    ensures a >= b ==> r + b == a
    ensures a < b ==> r == 0
  {
    if a >= b then a - b else 0
  }

  /** `handle_optimize_storage`: echoes the sizes and the count and reports the
      share of the original size that was saved, as a percentage. */
  function HandleOptimizeStorage(cmd: OptimizeStorageCommand, original: nat, optimized: nat, frameCount: nat)
    : (r: Result<StorageOptimized>)
    ensures r.Ok?
    ensures r.value.videoId == cmd.videoId && r.value.originalSizeBytes == original &&
            r.value.optimizedSizeBytes == optimized && r.value.frameCount == frameCount
    ensures 0.0 <= r.value.spaceSavedPercent <= 100.0
    ensures original == 0 || optimized >= original ==> r.value.spaceSavedPercent == 0.0
    ensures original > 0 && optimized == 0 ==> r.value.spaceSavedPercent == 100.0
  {
    var saved := SaturatingSub(original, optimized);
    var percent := if original > 0 then (saved as real / original as real) * 100.0 else 0.0;
    assert 0.0 <= percent <= 100.0 && (original > 0 && optimized == 0 ==> percent == 100.0) by {
      if original > 0 { SavedShareInUnit(saved, original); }
    }
    Ok(StorageOptimized(cmd.videoId, original, optimized, frameCount, percent))
  }

  lemma SavedShareInUnit(saved: nat, original: nat)
    requires 0 < original && saved <= original
    ensures 0.0 <= (saved as real / original as real) * 100.0 <= 100.0
    ensures saved == original ==> (saved as real / original as real) * 100.0 == 100.0
  {
    var f := saved as real / original as real;
    var o := original as real;
    assert f * o == saved as real;
    assert f >= 0.0;
    assert (f - 1.0) * o <= 0.0;
    assert f <= 1.0;
    if saved == original {
      assert (f - 1.0) * o == 0.0;
    }
  }

  /** `validate_extraction_params`: the interval must lie in 1..=60 seconds and
      a JPEG quality, when given, in 1..=100. */
  function ValidateExtractionParams(cmd: ExtractFramesCommand): (r: Result<()>)
    ensures r.Ok? <==> 1 <= cmd.intervalSecs <= 60 &&
                       (cmd.jpegQuality.Some? ==> 1 <= cmd.jpegQuality.value <= 100)
    ensures r.Err? ==> r.error.InvalidConfig?
    ensures cmd.intervalSecs < 1 ==> r == Err(InvalidConfig("Frame interval must be at least 1 second"))
  {
    if cmd.intervalSecs < 1 then Err(InvalidConfig("Frame interval must be at least 1 second"))
    else if cmd.intervalSecs > 60 then Err(InvalidConfig("Frame interval must be at most 60 seconds"))
    else if cmd.jpegQuality.Some? && !(1 <= cmd.jpegQuality.value <= 100) then
      Err(InvalidConfig("JPEG quality must be between 1 and 100"))
    else Ok(())
  }

  /** `generate_frame_filename`: `{id}_frame_{n:04}.{format}`. */
  function FrameFilename(sessionId: Id, frameNumber: nat, format: string): (r: string)
    ensures |r| == |sessionId.uuid| + 7 + |PadNat(frameNumber, 4)| + 1 + |format|
    ensures StartsWith(r, sessionId.uuid + "_frame_")
    ensures EndsWith(r, "." + format)
    ensures r[|sessionId.uuid| + 7..|r| - |format| - 1] == PadNat(frameNumber, 4)
  {
    var prefix, digits, suffix := sessionId.uuid + "_frame_", PadNat(frameNumber, 4), "." + format;
    assert |prefix| == |sessionId.uuid| + 7 && |suffix| == |format| + 1;
    NameParts(prefix, digits, suffix);
    prefix + digits + suffix
  }

  /** Where the parts of a three-part name lie. */
  lemma NameParts(a: string, b: string, c: string)
    ensures var r := a + b + c;
      |r| == |a| + |b| + |c| && r[..|a|] == a && r[|a|..|r| - |c|] == b && r[|r| - |c|..] == c
  {
  }

  /** The numbered part of a frame name gives back the frame number. */
  lemma FrameFilenameNumber(sessionId: Id, frameNumber: nat, format: string)
    ensures var r := FrameFilename(sessionId, frameNumber, format);
      DigitsValue(r[|sessionId.uuid| + 7..|r| - |format| - 1]) == frameNumber
  {
    var r := FrameFilename(sessionId, frameNumber, format);
    assert r[|sessionId.uuid| + 7..|r| - |format| - 1] == PadNat(frameNumber, 4);
    PadNatValue(frameNumber, 4);
  }

  /** Frame 1 is written as "frame_0001". */
  lemma FrameFilenameExample(sessionId: Id, format: string)
    ensures FrameFilename(sessionId, 1, format) == sessionId.uuid + "_frame_0001." + format
  {
    assert PadNat(1, 4) == "0001";
  }

  /** `generate_frame_path`: the file name joined under the output directory. */
  function FramePath(outputDir: string, sessionId: Id, frameNumber: nat, format: string): (r: string)
    ensures StartsWith(r, outputDir) && EndsWith(r, FrameFilename(sessionId, frameNumber, format))
  {
    Files.PathJoin(outputDir, FrameFilename(sessionId, frameNumber, format))
  }

  /** `validate_hash_params`: any algorithm, with a hash size in 8..=64. */
  function ValidateHashParams(algorithm: HashAlgorithm, hashSize: nat): (r: Result<()>)
    ensures r.Ok? <==> 8 <= hashSize <= 64
    ensures hashSize < 8 ==> r == Err(InvalidConfig("Hash size must be at least 8x8 pixels"))
    ensures hashSize > 64 ==> r == Err(InvalidConfig("Hash size must be at most 64x64 pixels"))
  {
    if hashSize < 8 then Err(InvalidConfig("Hash size must be at least 8x8 pixels"))
    else if hashSize > 64 then Err(InvalidConfig("Hash size must be at most 64x64 pixels"))
    else match algorithm
      case Average => Ok(())
      case Difference => Ok(())
      case Perceptual => Ok(())
  }

  /** `create_extracted_event`: every argument lands in its field unchanged. */
  function CreateExtractedEvent(frameId: Id, videoId: Id, frameNumber: nat, timestamp: real,
                                framePath: string, width: nat, height: nat): (e: FrameExtracted)
    ensures e.frameId == frameId && e.videoId == videoId && e.frameNumber == frameNumber
    ensures e.timestamp == timestamp && e.framePath == framePath && e.width == width && e.height == height
  {
    FrameExtracted(frameId, videoId, frameNumber, timestamp, framePath, width, height)
  }
}
