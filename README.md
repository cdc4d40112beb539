# yt-sl slide extractor, modelled in Dafny

This project models the core of yt-sl, a tool that turns a YouTube lecture
into a Markdown document of its slides. The tool downloads the video, samples
frames at a fixed interval and computes a perceptual hash of each frame. It
groups consecutive near-identical frames into slides, keeps one
representative frame per slide, reads the slide text with Tesseract OCR and
writes a report. The pipeline runs as a checkpointed stage machine that can
resume after an interruption.

The model covers:

- the hash comparison and bit packing;
- anchor-based deduplication, with representative selection and slide naming;
- frame arithmetic and frame and hash parameter validation;
- the byte-bounded frame cache and the memory monitor;
- the checkpointed session stage machine;
- the in-memory processing session and its manager;
- URL validation and video-id extraction;
- the availability policy and error-text classification;
- Tesseract TSV parsing and the low-confidence rule;
- Markdown report assembly;
- configuration and command-line validation;
- version parsing and comparison for the external tools;
- the error type, with its categories and messages;
- the log-level parser.

Subprocesses, image decoding, the clock, random ids, the file system and the
operating system's memory statistics are parameters of the model. Each is
either a function-typed argument or a value the caller supplies, as each
module's header says.

Strings are `seq<char>`. Unsigned machine integers are naturals, with
wrap-around or saturation written out where the program relies on it.
`f64` values are `real`.

One file per area of the program:

| file | program part |
|---|---|
| `strings.dfy` | Rust string and formatting helpers the core relies on (`trim`, `split`, `lines`, `contains`, zero padding, `parse`) |
| `errors.dfy` | `ExtractionError`, its category, short message and user message |
| `hash_comparer.dfy` | `HashComparer::calculate_similarity` |
| `perceptual_hash.dfy` | bit packing and the average, difference and perceptual bit rules |
| `dedup.dfy` | `handle_identify_unique_slides` |
| `slide_selector.dfy` | `SlideSelector::preserve_slides` over a map-based file system |
| `files.dfy` | that file system |
| `frames.dfy` | frame handlers and frame events |
| `frame_storage.dfy` | `FrameStorageOptimizer` |
| `memory.dfy` | `MemoryMonitor` |
| `session_state.dfy` | the checkpointed `SessionState` |
| `orchestrator.dfy` | `SessionOrchestrator::run_session` |
| `processing_session.dfy` | `ProcessingSession` and `SessionManager` |
| `url_validator.dfy` | `UrlValidator` |
| `video.dfy` | video events and `handle_download_video` |
| `availability.dfy` | `AvailabilityChecker` policy and classification |
| `ocr.dfy` | `parse_tsv` and `handle_extract_text` |
| `document.dfy` | `handle_generate_document` |
| `config.dfy` | `ExtractionConfig` and `ConfigBuilder` |
| `cli.dfy` | `CliArgs` |
| `dependencies.dfy` | `DependencyChecker` |
| `logging.dfy` | `LogLevel`, `LoggingConfig`, `SessionContext` |

## Model

| member | source | states |
|---|---|---|
| HashComparer.NibbleValue | poc/src/contexts/dedup/infrastructure/comparer.rs:14-15 | a character reads as a nibble below 16; a character that is not a hex digit reads as 0 |
| HashComparer.Xor4 | poc/src/contexts/dedup/infrastructure/comparer.rs:16 | the xor of two nibbles is a nibble, and it is 0 exactly when the nibbles are equal |
| HashComparer.Xor4Commutes | poc/src/contexts/dedup/infrastructure/comparer.rs:16 | the xor of two nibbles does not depend on their order |
| HashComparer.PopCountBound | poc/src/contexts/dedup/infrastructure/comparer.rs:16 | a value below 2^k has at most k one bits |
| HashComparer.PopCountPositive | poc/src/contexts/dedup/infrastructure/comparer.rs:16 | a nonzero xor has at least one bit set |
| HashComparer.NibbleDistance | poc/src/contexts/dedup/infrastructure/comparer.rs:14-16 | two hash characters differ in at most four bits |
| HashComparer.CalculateSimilarity | poc/src/contexts/dedup/infrastructure/comparer.rs:7-25 | the loop returns the specified similarity: 0.0 when either hash is empty or the lengths differ, otherwise 1 minus the differing bits over 4 bits per character |
| HashComparer.DifferencesBound | poc/src/contexts/dedup/infrastructure/comparer.rs:12-17 | n aligned characters differ in at most 4n bits |
| HashComparer.DifferencesSymmetric | poc/src/contexts/dedup/infrastructure/comparer.rs:13-16 | the difference count does not depend on argument order |
| HashComparer.DifferencesSelf | poc/src/contexts/dedup/infrastructure/comparer.rs:13-16 | a hash does not differ from itself |
| HashComparer.DifferencesZeroIff | poc/src/contexts/dedup/infrastructure/comparer.rs:13-16 | the difference count is 0 exactly when every aligned pair reads as the same nibble |
| HashComparer.SimilarityInRange | poc/src/contexts/dedup/infrastructure/comparer.rs:5-24 | the score lies in [0, 1] |
| HashComparer.SimilaritySymmetric | poc/src/contexts/dedup/infrastructure/comparer.rs:7-24 | the score does not depend on argument order |
| HashComparer.SimilarityOneIff | poc/src/contexts/dedup/infrastructure/comparer.rs:7-24 | for non-empty hashes of equal length the score is 1.0 exactly when they read as the same nibbles |
| HashComparer.SimilaritySelf | poc/src/contexts/dedup/infrastructure/comparer.rs:32-37 | a non-empty hash compared with itself scores 1.0 |
| HashComparer.SimilarityZeroOnMismatch | poc/src/contexts/dedup/infrastructure/comparer.rs:8-10 | an empty hash, or hashes of different lengths, score exactly 0.0 |
| HashComparer.TotalBitsPositive | poc/src/contexts/dedup/infrastructure/comparer.rs:19-22 | after the early return the bit total is positive, so the `total_bits == 0` branch cannot run |
| HashComparer.DifferencesUniform | poc/src/contexts/dedup/infrastructure/comparer.rs:12-17 | n aligned pairs that each differ in d bits differ in n·d bits in all |
| HashComparer.AllOnesVersusAllZeros | poc/src/contexts/dedup/infrastructure/comparer.rs:39-44 | an all-'f' hash against an all-'0' hash of the same length scores 0.0 |
| HashComparer.OneBitOff | poc/src/contexts/dedup/infrastructure/comparer.rs:46-55 | an all-'f' hash against one whose last character is 'e' scores 1 − 1/(4n); with 16 characters that is 1 − 1/64 |
| HashComparer.FarthestDigits | poc/src/contexts/dedup/infrastructure/comparer.rs:14-16 | 'f' and '0' differ in all four bits |
| HashComparer.NeighbourDigits | poc/src/contexts/dedup/infrastructure/comparer.rs:48-49 | 'f' and 'e' differ in one bit, and 'f' and 'f' in none |
| HashComparer.NonHexReadsAsZero | poc/src/contexts/dedup/infrastructure/comparer.rs:14-15 | replacing any character with a non-hex one changes the count exactly as replacing it with '0' would |
| PerceptualHash.HexDigit | poc/src/contexts/frame/infrastructure/perceptual_hash.rs:240 | `{:x}` of a value below 16 is a hex digit that reads back as that value |
| PerceptualHash.ChunkPrefixBound | poc/src/contexts/frame/infrastructure/perceptual_hash.rs:234-239 | a chunk of at most four bits packs into a value below 16 |
| PerceptualHash.ChunkValueBound | poc/src/contexts/frame/infrastructure/perceptual_hash.rs:234-239 | a chunk of at most four bits packs into a value below 16 |
| PerceptualHash.PackChunk | poc/src/contexts/frame/infrastructure/perceptual_hash.rs:234-239 | the inner loop ORs `1 << (3 − i)` for each bit equal to 1, giving the chunk's value |
| PerceptualHash.HexOfStep | poc/src/contexts/frame/infrastructure/perceptual_hash.rs:233-241 | each chunk of four, or the shorter last one, adds one digit and packing continues after it |
| PerceptualHash.BitsToHex | poc/src/contexts/frame/infrastructure/perceptual_hash.rs:231-243 | the loop's string is the specified packing of the bit vector |
| PerceptualHash.HexLength | poc/src/contexts/frame/infrastructure/perceptual_hash.rs:231-243 | the packing has ceil(len/4) digits |
| PerceptualHash.HexDigitsOnly | poc/src/contexts/frame/infrastructure/perceptual_hash.rs:240 | every packed digit is a hex digit, never the separator character |
| PerceptualHash.ChunkBit | poc/src/contexts/frame/infrastructure/perceptual_hash.rs:235-238 | bit 3 − j of a chunk's value is set exactly when element j exists and equals 1: MSB first, a short chunk left-aligned |
| PerceptualHash.Normalized | poc/src/contexts/frame/infrastructure/perceptual_hash.rs:236 | mapping each element to 1 when it is 1 and to 0 otherwise keeps the length |
| PerceptualHash.ChunkPrefixNormalized | poc/src/contexts/frame/infrastructure/perceptual_hash.rs:236-238 | a chunk and its 0/1 normalisation pack alike |
| PerceptualHash.OnlyOneSetsABit | poc/src/contexts/frame/infrastructure/perceptual_hash.rs:236-238 | only the value 1 sets a bit: a bit vector and its 0/1 normalisation pack alike |
| PerceptualHash.PackingExample | poc/src/contexts/frame/infrastructure/perceptual_hash.rs:342-348 | [1,0,1,0,1,1,0,0,1,1] packs into "acc" |
| PerceptualHash.ThreeChunks | poc/src/contexts/frame/infrastructure/perceptual_hash.rs:233-241 | two full chunks and a short one pack into their three digits, in order |
| PerceptualHash.FullChunkFirst | poc/src/contexts/frame/infrastructure/perceptual_hash.rs:233-241 | a leading full chunk becomes the first digit |
| PerceptualHash.ShortChunkOnly | poc/src/contexts/frame/infrastructure/perceptual_hash.rs:233-241 | a chunk shorter than four becomes the last digit |
| PerceptualHash.ExampleChunks | poc/src/contexts/frame/infrastructure/perceptual_hash.rs:342-348 | the example's chunks 1010, 1100 and 11 have values 10, 12 and 12 |
| PerceptualHash.ChunkSteps | poc/src/contexts/frame/infrastructure/perceptual_hash.rs:235-238 | a chunk's value is the sum of the set bits' weights 8, 4, 2, 1 |
| PerceptualHash.SumBound | poc/src/contexts/frame/infrastructure/perceptual_hash.rs:133-136 | the sum of samples bounded by m is at most len·m |
| PerceptualHash.AverageBits | poc/src/contexts/frame/infrastructure/perceptual_hash.rs:139-143 | bit k is 1 exactly when sample k is at least floor(sum / n²), one bit per sample in row-major order |
| PerceptualHash.AverageHashBits | poc/src/contexts/frame/infrastructure/perceptual_hash.rs:132-143 | the two loops compute the average-hash bits |
| PerceptualHash.ArgMax | poc/src/contexts/frame/infrastructure/perceptual_hash.rs:141-142 | some sample is at least every other sample |
| PerceptualHash.AverageHashHasOneBit | poc/src/contexts/frame/infrastructure/perceptual_hash.rs:137-143 | the brightest sample is never below the mean, so an average hash has at least one bit set |
| PerceptualHash.PerceptualHashBits | poc/src/contexts/frame/infrastructure/perceptual_hash.rs:206-217 | the perceptual rule is the average rule on the 8×8 grid: bit k is 1 exactly when sample k ≥ floor(sum/64) |
| PerceptualHash.RowBits | poc/src/contexts/frame/infrastructure/perceptual_hash.rs:170-174 | a row of n + 1 samples gives n bits |
| PerceptualHash.DifferenceBits | poc/src/contexts/frame/infrastructure/perceptual_hash.rs:168-176 | the rows' bits together give n bits per row |
| PerceptualHash.DifferenceHashBits | poc/src/contexts/frame/infrastructure/perceptual_hash.rs:167-176 | the nested loops compute the difference-hash bits |
| PerceptualHash.DifferenceBitAt | poc/src/contexts/frame/infrastructure/perceptual_hash.rs:169-174 | bit y·n + x is 1 exactly when sample (x, y) is at least sample (x + 1, y): rows outer, columns inner |
| PerceptualHash.FlatGridAllOnes | poc/src/contexts/frame/infrastructure/perceptual_hash.rs:171-173 | a grid with no horizontal change hashes to all ones |
| PerceptualHash.AverageHash | poc/src/contexts/frame/infrastructure/perceptual_hash.rs:123-146 | the average hash of an n×n grid is the packing of its bits, with ceil(n²/4) digits |
| PerceptualHash.DifferenceHash | poc/src/contexts/frame/infrastructure/perceptual_hash.rs:157-178 | the difference hash of an (n+1)×n grid is the packing of its bits, with ceil(n²/4) digits |
| PerceptualHash.CombinedHash | poc/src/contexts/frame/infrastructure/perceptual_hash.rs:300-307 | splitting the combined hash at the vertical bar gives back the average hash and the difference hash |
| PerceptualHash.SplitAtSeparator | poc/src/contexts/frame/infrastructure/perceptual_hash.rs:306 | joining two parts free of the vertical bar with a vertical bar is undone by splitting on it |
| PerceptualHash.ComputeSimilarity | poc/src/contexts/frame/infrastructure/perceptual_hash.rs:255-273 | the loop returns the frame-side similarity: 0.0 on different lengths, 1.0 on two empty hashes, otherwise 1 minus the differing-bit fraction |
| PerceptualHash.SimilarityVariantsDifferOnlyOnEmpty | poc/src/contexts/frame/infrastructure/perceptual_hash.rs:255-272 | the frame-side and comparer similarities differ exactly on two empty hashes |
| Dedup.DefaultCommand | poc/src/contexts/dedup/domain/commands.rs:31-40 | the default command has threshold 0.95, the Middle strategy, empty directories and no frames |
| Dedup.Step | poc/src/contexts/dedup/domain/handlers.rs:18-30 | one step of the pass keeps every group non-empty and leaves at least one group |
| Dedup.Grouping | poc/src/contexts/dedup/domain/handlers.rs:15-34 | the groups of the pass are non-empty, and there are none exactly when there are no frames |
| Dedup.Representative | poc/src/contexts/dedup/domain/handlers.rs:38-42 | the representative belongs to its group: the first frame for First, the one at half the group's length (rounded down) for Middle, the last for Last |
| Dedup.SlidePath | poc/src/contexts/dedup/domain/handlers.rs:48 | a slide path starts with the slides directory and "/slide_" and ends with ".jpg" |
| Dedup.GroupFrames | poc/src/contexts/dedup/domain/handlers.rs:15-34 | the grouping loop, which compares each frame with the open group's first frame, produces the specified groups |
| Dedup.GroupingPrefix | poc/src/contexts/dedup/domain/handlers.rs:18-30 | grouping one more frame is one more step of the pass |
| Dedup.StepOpen | poc/src/contexts/dedup/domain/handlers.rs:19-29 | against an open group a frame either joins it, when its similarity to the group's first frame reaches the threshold, or opens a new group |
| Dedup.SlideEvents | poc/src/contexts/dedup/domain/handlers.rs:36-50 | event i names group i's representative, slide index i + 1 and the path of slide i + 1 |
| Dedup.IdentifyUniqueSlides | poc/src/contexts/dedup/domain/handlers.rs:8-59 | an empty frame list fails with NoUniqueSlidesFound; otherwise there is one event per group, in group order, and the summary's slide count is the number of events |
| Dedup.FlattenAppend | poc/src/contexts/dedup/domain/handlers.rs:32-34 | closing a group appends its frames to the flattened groups |
| Dedup.GroupingFlattens | poc/src/contexts/dedup/domain/handlers.rs:15-34 | the groups concatenate back to the input frames, in order |
| Dedup.GroupingAnchored | poc/src/contexts/dedup/domain/handlers.rs:22-26 | every frame of a group is similar enough to the group's first frame, not merely to its predecessor |
| Dedup.GroupingBreaks | poc/src/contexts/dedup/domain/handlers.rs:25-28 | a new group starts only where the frame falls below the threshold against the open group's first frame |
| Dedup.FlattenLength | poc/src/contexts/dedup/domain/handlers.rs:15-34 | non-empty groups hold at least as many frames as there are groups |
| Dedup.SlideCountBounds | poc/src/contexts/dedup/domain/handlers.rs:15-34 | a non-empty frame list gives between 1 and len(frames) slides |
| Dedup.NonPositiveThresholdOneSlide | poc/src/contexts/dedup/domain/handlers.rs:23-25 | with a threshold of 0 or below, all frames form one slide |
| Dedup.MismatchedHashStartsSlide | poc/src/contexts/dedup/domain/handlers.rs:23-25 | with a positive threshold, a frame whose hash is empty or differs in length from its group's first hash never joins that group |
| Dedup.SlidePathsDistinct | poc/src/contexts/dedup/domain/handlers.rs:48 | different slide numbers give different paths |
| Dedup.TwoSlidesExample | poc/src/contexts/dedup/domain/handlers.rs:67-107 | hashes ffff, ffff and 0000 at threshold 0.95 form the two groups [ffff, ffff] and [0000] |
| Dedup.ThreeFrames | poc/src/contexts/dedup/domain/handlers.rs:18-30 | a second frame that matches the first and a third that does not give two groups |
| Dedup.SimilarPair | poc/src/contexts/dedup/domain/handlers.rs:18-30 | a second frame that matches the first gives one group |
| Dedup.GroupingSnoc | poc/src/contexts/dedup/domain/handlers.rs:18-30 | grouping a list with one frame appended is one more step |
| Dedup.OppositeHashes | poc/src/contexts/dedup/domain/handlers.rs:85-90 | ffff and 0000 have similarity 0.0 |
| Dedup.OneFrameOneSlide | poc/src/contexts/dedup/domain/handlers.rs:124-146 | a single frame makes a single slide |
| SlideSelector.FindFrame | poc/src/contexts/dedup/infrastructure/slide_selector.rs:17-19 | None exactly when no frame has the id; otherwise the first frame carrying the id |
| SlideSelector.PreserveSlides | poc/src/contexts/dedup/infrastructure/slide_selector.rs:11-52 | the loop's result and final file system are those of the per-slide specification, stopping at the first error |
| SlideSelector.PreserveAppend | poc/src/contexts/dedup/infrastructure/slide_selector.rs:15-49 | running over two event lists in sequence is running over the first and, if it succeeded, over the second |
| SlideSelector.MissingFrameStops | poc/src/contexts/dedup/infrastructure/slide_selector.rs:17-25 | a slide whose frame id is missing stops the run with InternalError "Frame ID <id> not found in metadata", keeping the copies made before it |
| SlideSelector.PreserveFrame | poc/src/contexts/dedup/infrastructure/slide_selector.rs:15-49 | paths that are not slide paths keep their presence and contents, and no directory disappears |
| SlideSelector.NewDirsAboveSlides | poc/src/contexts/dedup/infrastructure/slide_selector.rs:30-38 | every directory created lies above some slide path |
| SlideSelector.StepDirs | poc/src/contexts/dedup/infrastructure/slide_selector.rs:30-38 | a directory one iteration creates lies above that slide's path |
| SlideSelector.PreserveCopiesFrames | poc/src/contexts/dedup/infrastructure/slide_selector.rs:40-48 | after a successful run, with distinct slide paths, each slide path holds the bytes of its frame's image |
| Files.Parent | poc/src/contexts/dedup/infrastructure/slide_selector.rs:31 | a path has no parent exactly when it is empty or the root; a bare name's parent is empty, a top-level path's is the root, and otherwise the parent is everything before the last '/' |
| Files.ParentOfJoin | poc/src/contexts/dedup/infrastructure/slide_selector.rs:31 | the parent of a directory joined with a plain name is that directory |
| Files.CreateDirAll | poc/src/contexts/dedup/infrastructure/slide_selector.rs:32-37 | on success every directory on the way to the target exists afterwards and nothing else changes; it fails, changing nothing, exactly when a file stands where one of those directories would go |
| Files.Copy | poc/src/contexts/dedup/infrastructure/slide_selector.rs:41-48 | the copy succeeds exactly when the source is a file, the target is not a directory and the target's parent exists; on success the target holds the source's bytes, on failure nothing changes |
| Files.PathJoin | poc/src/contexts/frame/domain/events.rs:83-84 | the joined path starts with the directory and ends with the name, adding at most one separator |
| Files.FileName | poc/src/contexts/document/domain/handlers.rs:53-56 | the file name is a non-empty last component without '/' at the end of the path |
| Files.Extension | poc/src/contexts/session/infrastructure/orchestrator.rs:167 | the extension follows a '.' at the end of the file name and contains no '.' |
| Files.FileNameOfJoin | poc/src/contexts/frame/domain/events.rs:76-87 | the file name of a directory joined with a plain name is that name |
| Frames.CalculateTotalFrames | poc/src/contexts/frame/domain/handlers.rs:41-51 | the count is that of the specification function: 0 for a zero interval, else the truncated quotient, one more for a partial interval, and at least 1 |
| Frames.TotalFrames | poc/src/contexts/frame/domain/handlers.rs:41-51 | the count fits in 32 bits |
| Frames.TotalFramesCovers | poc/src/contexts/frame/domain/handlers.rs:41-51 | without overflow the count is the number of intervals needed to cover the duration, and at least 1: count * interval reaches the duration and one fewer does not |
| Frames.TotalFramesExamples | poc/src/contexts/frame/domain/handlers.rs:160-170 | 60 s at 5 s gives 12, 65 s gives 13, 10 s at 1 s gives 10, 0 s gives 1 and a zero interval 0 |
| Frames.ExpectedFrames | poc/src/contexts/frame/domain/events.rs:175-181 | the expected count fits in 32 bits and is 0 for a zero interval |
| Frames.ExpectedVersusTotal | poc/src/contexts/frame/domain/events.rs:175-181 | for a positive duration that is a whole number of intervals the expected count is one more than the total count; otherwise the two agree |
| Frames.ExpectedFramesExamples | poc/src/contexts/frame/domain/events.rs:274-281 | 60 s at 5 s gives 13, 65 s gives 14 and 10 s at 1 s gives 11 |
| Frames.HandleExtractFrames | poc/src/contexts/frame/domain/handlers.rs:12-38 | a zero interval fails with InvalidConfig before the video is looked at; a missing video fails with FrameExtractionFailed; otherwise the event echoes the command and carries the total frame count, at least 1 |
| Frames.HandleComputeHash | poc/src/contexts/frame/domain/handlers.rs:54-65 | fails with HashComputationFailed(frame id) exactly when the frame file is missing; otherwise an empty hash, the algorithm's name and 0 ms |
| Frames.HandleFrameError | poc/src/contexts/frame/domain/handlers.rs:68-84 | extraction continues exactly when fewer frames than the maximum were skipped; otherwise TooManyCorruptFrames(count, max) |
| Frames.HandleOptimizeStorage | poc/src/contexts/frame/domain/handlers.rs:87-107 | never fails; echoes the sizes and count; the saved share lies in 0..100, is 0 when nothing was saved or the original is empty and 100 when the optimized size is 0 |
| Frames.ValidateExtractionParams | poc/src/contexts/frame/domain/events.rs:18-40 | accepts exactly intervals of 1 to 60 seconds with no JPEG quality or one in 1..100; every rejection is InvalidConfig |
| Frames.FrameFilename | poc/src/contexts/frame/domain/events.rs:56-62 | the name is the session id, "_frame_", the number padded to 4 digits, "." and the format, in that order |
| Frames.FrameFilenameNumber | poc/src/contexts/frame/domain/events.rs:56-62 | the numbered part of a frame name reads back as the frame number |
| Frames.FrameFilenameExample | poc/src/contexts/frame/domain/events.rs:253-261 | frame 1 is named "<id>_frame_0001.<format>" |
| Frames.FramePath | poc/src/contexts/frame/domain/events.rs:76-87 | the path starts with the output directory and ends with the frame's file name |
| Frames.ValidateHashParams | poc/src/contexts/frame/domain/events.rs:140-162 | accepts exactly hash sizes 8 to 64, for every algorithm, with the program's two messages below and above |
| Frames.CreateExtractedEvent | poc/src/contexts/frame/domain/events.rs:107-126 | every argument lands unchanged in its field of the event |
| FrameStorage.BytesUpdate | poc/src/contexts/frame/infrastructure/frame_storage.rs:286-288 | inserting an image under an id changes the cached byte total by the new size minus the size of any image it replaces |
| FrameStorage.FrameStorageOptimizer.constructor | poc/src/contexts/frame/infrastructure/frame_storage.rs:40-46 | a new optimizer has an empty cache, a 100 MiB budget and a count of 0, which equals the cached bytes |
| FrameStorage.FrameStorageOptimizer.WithCacheSize | poc/src/contexts/frame/infrastructure/frame_storage.rs:48-54 | the budget is the given number of MiB, the cache empty and the count 0 |
| FrameStorage.FrameStorageOptimizer.EvictFor | poc/src/contexts/frame/infrastructure/frame_storage.rs:277-285 | the eviction loop removes cached entries only while the new image would reach the budget, and stops once it fits or the cache is empty; the count drops by exactly the evicted bytes |
| FrameStorage.FrameStorageOptimizer.CacheFrame | poc/src/contexts/frame/infrastructure/frame_storage.rs:274-289 | as written: after eviction the image is cached under its id and its size added to the count, even when it replaces an image |
| FrameStorage.FrameStorageOptimizer.CacheFrameCorrected | poc/src/contexts/frame/infrastructure/frame_storage.rs:274-289 | corrected: the replaced image's size is taken off as well, so a count equal to the cached bytes stays equal |
| FrameStorage.FrameStorageOptimizer.GetCachedFrame | poc/src/contexts/frame/infrastructure/frame_storage.rs:291-293 | the cached image for an id, and none exactly when the id is not cached |
| FrameStorage.FrameStorageOptimizer.ClearCache | poc/src/contexts/frame/infrastructure/frame_storage.rs:295-298 | the cache is empty and the count 0, with the budget unchanged |
| FrameStorage.CorrectedKeepsTally | poc/src/contexts/frame/infrastructure/frame_storage.rs:274-289 | the corrected insertion keeps an exact count exact |
| FrameStorage.AsWrittenDrift | poc/src/contexts/frame/infrastructure/frame_storage.rs:286-288 | the insertion as written over-counts by exactly the size of the image it replaces, and never under-counts |
| FrameStorage.CacheDriftExample | poc/src/contexts/frame/infrastructure/frame_storage.rs:286-288 | caching 1 byte and then 2 bytes under one id, far below the budget, leaves a count of 3 for 2 cached bytes |
| FrameStorage.OversizedImageEmptiesCache | poc/src/contexts/frame/infrastructure/frame_storage.rs:277-288 | an image at least as large as the budget evicts everything and is cached anyway, leaving the count at or above the budget |
| FrameStorage.NoEvictionUnderBudget | poc/src/contexts/frame/infrastructure/frame_storage.rs:277 | while the new image fits under the budget nothing is evicted |
| FrameStorage.OptimizeStorage | poc/src/contexts/frame/infrastructure/frame_storage.rs:60-97 | a missing directory fails with FrameExtractionFailed; a directory over 10 GiB fails with InsufficientDiskSpace(10240, size in MiB); on success the event carries the measured size, the compressed size and count when compressing, else the original size and the frame count, and a cleanup event exactly when cleanup was asked |
| FrameStorage.OversizeRefusedBeforeCompression | poc/src/contexts/frame/infrastructure/frame_storage.rs:73-78 | an over-size directory is refused before compression, counting or cleanup can affect the result |
| Memory.ToMb | poc/src/shared/infrastructure/memory.rs:29-41 | whole mebibytes rounded down: mb * 1048576 <= bytes < (mb + 1) * 1048576 |
| Memory.ToMbOfWhole | poc/src/shared/infrastructure/memory.rs:29-41 | a whole number of mebibytes converts back exactly |
| Memory.MemoryUsageExample | poc/src/shared/infrastructure/memory.rs:421-432 | 400, 500 and 500 MiB of usage report 400, 500 and 500 MB |
| Memory.UtilizationPercent | poc/src/shared/infrastructure/memory.rs:44-50 | 0 for a zero threshold; otherwise non-negative, above 100 exactly when the current size exceeds the threshold and 100 exactly when it equals it |
| Memory.RssFoundIff | poc/src/shared/infrastructure/memory.rs:141-159 | the status text yields a resident size exactly when some line starts with "VmRSS:" and has a numeric second field |
| Memory.RssFirstLine | poc/src/shared/infrastructure/memory.rs:146-155 | the size found is the first such line's field times 1024 |
| Memory.MemoryMonitor.constructor | poc/src/shared/infrastructure/memory.rs:70-82 | a new monitor has peak 0, a 500 MiB threshold and a warning fraction of 0.8 |
| Memory.MemoryMonitor.WithThreshold | poc/src/shared/infrastructure/memory.rs:84-95 | the threshold is the given MiB and the warning fraction is clamped into [0, 1] |
| Memory.MemoryMonitor.RecordUsage | poc/src/shared/infrastructure/memory.rs:97-108 | the peak becomes the larger of itself and the recorded size, so it never decreases; threshold and fraction stay |
| Memory.MemoryMonitor.CurrentBytes | poc/src/shared/infrastructure/memory.rs:125-159 | the resident size read from the status text, or the peak when the text is missing or states none |
| Memory.MemoryMonitor.GetUsage | poc/src/shared/infrastructure/memory.rs:111-118 | the report carries the current size, the peak and the threshold |
| Memory.MemoryMonitor.ExceedsThreshold | poc/src/shared/infrastructure/memory.rs:162-165 | true exactly when the current size is strictly above the threshold |
| Memory.MemoryMonitor.WarningBytes | poc/src/shared/infrastructure/memory.rs:170 | the warning level lies between 0 and the threshold when the fraction is in [0, 1] |
| Memory.MemoryMonitor.ApproachingThreshold | poc/src/shared/infrastructure/memory.rs:168-172 | true exactly when the current size is strictly above the truncated warning level |
| Memory.MemoryMonitor.Validate | poc/src/shared/infrastructure/memory.rs:180-190 | fails exactly when the threshold is exceeded, with MemoryThresholdExceeded(current MB, threshold MB) |
| Memory.MemoryMonitor.ExceedsImpliesApproaching | poc/src/shared/infrastructure/memory.rs:162-172 | exceeding the threshold implies approaching it |
| Memory.ValidateIffOverFull | poc/src/shared/infrastructure/memory.rs:180-190 | with a positive threshold, validation fails exactly when utilization is above 100% |
| Memory.RecordUsageExample | poc/src/shared/infrastructure/memory.rs:363-372 | recording 100, 200 and 150 MiB leaves a peak of 200 MiB |
| Memory.ValidateExample | poc/src/shared/infrastructure/memory.rs:396-419 | with no status text a 600 MiB peak fails with (600, 500) and a 400 MiB peak validates |
| SessionDomain.NewSessionState | poc/src/contexts/session/domain/state.rs:28-38 | a new checkpoint is at Starting for its id with no metadata and no paths recorded |
| SessionDomain.StageAt | poc/src/contexts/session/domain/state.rs:6-14 | the stage at each of the six positions, which is never Failed and has that position |
| SessionDomain.RankStageAt | poc/src/contexts/session/domain/state.rs:6-14 | the pipeline order puts the six non-failed stages one to one at positions 0 to 5 |
| Orchestrator.PathsDistinct | poc/src/contexts/session/infrastructure/orchestrator.rs:38-42 | the frames, slides, report and checkpoint paths lie directly under the session directory and are four different paths |
| Orchestrator.Loaded | poc/src/contexts/session/infrastructure/orchestrator.rs:53-67 | a run starts from the checkpoint when it exists and decodes, and from a new state otherwise |
| Orchestrator.ChainSnoc | poc/src/contexts/session/infrastructure/orchestrator.rs:84 | saving one more stage's checkpoint extends the chain of checkpoints |
| Orchestrator.ChainProgress | poc/src/contexts/session/infrastructure/orchestrator.rs:69-270 | the saved checkpoints walk the stages in order from the loaded one, one stage per save, never record a failure, keep the session id, and number at most five |
| Orchestrator.StepAdvances | poc/src/contexts/session/infrastructure/orchestrator.rs:82-83 | a stage moves the status one place along and keeps the session id |
| Orchestrator.MetadataStage | poc/src/contexts/session/infrastructure/orchestrator.rs:69-85 | stage 1 succeeds exactly when the URL validates and the availability check for the extracted id returns metadata, which it records with status MetadataFetched; otherwise it fails with the validation error, or with the availability error when the URL validated |
| Orchestrator.DownloadStage | poc/src/contexts/session/infrastructure/orchestrator.rs:89-107 | stage 2 succeeds exactly when the download does, recording the downloaded file's path with status VideoDownloaded; a failure is the download's error |
| Orchestrator.ExtractStage | poc/src/contexts/session/infrastructure/orchestrator.rs:110-135 | stage 3 succeeds exactly when frame extraction does, recording the frames directory with status FramesExtracted; a failure is the extraction's error |
| Orchestrator.FramesErrorSticks | poc/src/contexts/session/infrastructure/orchestrator.rs:165-187 | once hashing a frame fails, later entries do not change the stage's result |
| Orchestrator.HashFrames | poc/src/contexts/session/infrastructure/orchestrator.rs:148-187 | the hashing loop returns the specified frames, or the first hash error |
| Orchestrator.FramesNumbered | poc/src/contexts/session/infrastructure/orchestrator.rs:165-183 | every hashed frame is the ".jpg" entry at position frame number - 1, stamped at (frame number - 1) intervals with that entry's hash, in entry order |
| Orchestrator.FramesSnoc | poc/src/contexts/session/infrastructure/orchestrator.rs:165-183 | one more entry adds at most one frame, numbered by its position, at the end |
| Orchestrator.FramesComplete | poc/src/contexts/session/infrastructure/orchestrator.rs:167 | no ".jpg" entry is left out |
| Orchestrator.FramesErrorFromHash | poc/src/contexts/session/infrastructure/orchestrator.rs:174 | a hashing failure is the hash error of some ".jpg" entry |
| Orchestrator.DedupCommand | poc/src/contexts/session/infrastructure/orchestrator.rs:189-195 | the dedup command carries the hashed frames, the slides directory, the session's similarity threshold and the Middle strategy |
| Orchestrator.DedupStageIff | poc/src/contexts/session/infrastructure/orchestrator.rs:150-205 | stage 4 succeeds exactly when the frames directory lists, every ".jpg" entry hashes, at least one frame results and preserving the slides succeeds; success records the slides directory with status UniqueSlidesIdentified |
| Orchestrator.DedupStageError | poc/src/contexts/session/infrastructure/orchestrator.rs:150-201 | a failure of stage 4 is the listing error, the hash error of some ".jpg" entry, NoUniqueSlidesFound when there is no frame, or the error of preserving the slides |
| Orchestrator.DedupStage | poc/src/contexts/session/infrastructure/orchestrator.rs:141-206 | stage 4 returns what DedupOutcome specifies (in order: the directory listing, hashing every ".jpg" entry, identifying unique slides with the Middle strategy, preserving them), with the calls it made; besides, an unreadable frames directory fails with "Failed to read frames directory: ", no ".jpg" frame fails with NoUniqueSlidesFound, and success records the slides directory with status UniqueSlidesIdentified |
| Orchestrator.SlidesErrorSticks | poc/src/contexts/session/infrastructure/orchestrator.rs:230-250 | once reading a slide fails, later entries do not change the stage's result |
| Orchestrator.ReadSlides | poc/src/contexts/session/infrastructure/orchestrator.rs:215-250 | the text-recognition loop returns the specified slides, or the first error |
| Orchestrator.SlidesNumbered | poc/src/contexts/session/infrastructure/orchestrator.rs:230-246 | every slide entry becomes one slide, in order, numbered from 1, with timestamp 0 and its recognised text |
| Orchestrator.SlidesOkIff | poc/src/contexts/session/infrastructure/orchestrator.rs:230-250 | reading the slides succeeds exactly when text recognition succeeds for every entry; a failure is the error of the first entry that fails |
| Orchestrator.ReportStage | poc/src/contexts/session/infrastructure/orchestrator.rs:208-270 | stage 5 returns what ReportOutcome specifies (the listing, text recognition of every entry, then the report), with the calls it made; besides, an unreadable slides directory fails with "Failed to read slides directory: ", and success records the generated report's path with status Completed |
| Orchestrator.ReportStageIff | poc/src/contexts/session/infrastructure/orchestrator.rs:216-269 | stage 5 succeeds exactly when the slides directory lists, text recognition succeeds for every entry and the report is generated; success records the generated file's path with status Completed |
| Orchestrator.ReportStageError | poc/src/contexts/session/infrastructure/orchestrator.rs:216-265 | a failure of stage 5 is the listing error, the error of the first slide whose text recognition fails, or the report generator's error |
| Orchestrator.Save | poc/src/contexts/session/infrastructure/orchestrator.rs:295-309 | saving fails exactly when the write does, with "Failed to write session state: " and the reason |
| Orchestrator.Advance | poc/src/contexts/session/infrastructure/orchestrator.rs:84 | a stage's checkpoint is appended and saved; a failed write ends the run with its error |
| Orchestrator.StageOf | poc/src/contexts/session/infrastructure/orchestrator.rs:70-270 | the stage for the status of a state no `unwrap` stops moves it one place along, recording its one new field |
| Orchestrator.RunFromRunsStage | poc/src/contexts/session/infrastructure/orchestrator.rs:69-270 | a run from a state whose stage is still ahead begins with that stage's calls |
| Orchestrator.RunFromSavesStageResults | poc/src/contexts/session/infrastructure/orchestrator.rs:69-270 | every checkpoint the run saves is the result of the stage for the checkpoint before it, starting from the loaded state |
| Orchestrator.StageSaves | poc/src/contexts/session/infrastructure/orchestrator.rs:69-270 | the same, where the stage at the current position runs |
| Orchestrator.RunFromError | poc/src/contexts/session/infrastructure/orchestrator.rs:69-270 | an Err outcome is the write error of the last checkpoint, or the error of the stage that starts from the last checkpoint |
| Orchestrator.StageError | poc/src/contexts/session/infrastructure/orchestrator.rs:69-270 | the same, where the stage at the current position runs |
| Orchestrator.LaterStageError | poc/src/contexts/session/infrastructure/orchestrator.rs:69-270 | the same, where that stage succeeds and its checkpoint is saved, so the error comes from a later stage or a later write |
| Orchestrator.StepConsistent | poc/src/contexts/session/infrastructure/orchestrator.rs:82-83 | a stage from a consistent state (one holding the fields its status implies) leads to a consistent state one place along |
| Orchestrator.RunFromFinishes | poc/src/contexts/session/infrastructure/orchestrator.rs:69-292 | from a consistent state the run never panics |
| Orchestrator.RunFromOkIff | poc/src/contexts/session/infrastructure/orchestrator.rs:69-292 | from a consistent state the run returns the report exactly when every stage and every save succeeds |
| Orchestrator.StageOkIff | poc/src/contexts/session/infrastructure/orchestrator.rs:69-292 | the same, where the stage for the state's status runs |
| Orchestrator.SessionRunFacts | poc/src/contexts/session/infrastructure/orchestrator.rs:33-293 | after the directory and checkpoint steps: the first stage due runs; each checkpoint is its stage's result; a failure is a failing write or stage; from a new or consistent state the run never panics and returns the report exactly when every stage and save succeeds |
| Orchestrator.RunFromEnds | poc/src/contexts/session/infrastructure/orchestrator.rs:69-292 | a run from a state between stages ends as Ends describes, its checkpoints following those saved so far |
| Orchestrator.AfterStageEnds | poc/src/contexts/session/infrastructure/orchestrator.rs:84-292 | the same for what follows a stage |
| Orchestrator.WriteFailureEnds | poc/src/contexts/session/infrastructure/orchestrator.rs:295-309 | a failed write of a stage's checkpoint ends the run as Ends describes, that checkpoint being the last one attempted |
| Orchestrator.ContinueEnds | poc/src/contexts/session/infrastructure/orchestrator.rs:84-292 | the same when the checkpoint is saved and the run goes on to the next stage |
| Orchestrator.RunFromTerminal | poc/src/contexts/session/infrastructure/orchestrator.rs:69-292 | from a terminal state no stage runs and nothing is saved; the run returns the recorded report, or panics |
| Orchestrator.FromMetadata | poc/src/contexts/session/infrastructure/orchestrator.rs:69-87 | from stage 1 on, the outcome, the checkpoints added, the calls and the removals are those of RunFrom at position 0; the run also ends as Ends describes, and a terminal state runs no stage and saves nothing |
| Orchestrator.FromDownload | poc/src/contexts/session/infrastructure/orchestrator.rs:89-108 | from stage 2 on, the outcome, checkpoints, calls and removals are those of RunFrom at position 1; the run ends as Ends describes; a terminal state runs no stage |
| Orchestrator.FromFrames | poc/src/contexts/session/infrastructure/orchestrator.rs:110-139 | from stage 3 on, the outcome, checkpoints, calls and removals are those of RunFrom at position 2; the run ends as Ends describes; a terminal state runs no stage |
| Orchestrator.FromSlides | poc/src/contexts/session/infrastructure/orchestrator.rs:141-206 | from stage 4 on, the outcome, checkpoints, calls and removals are those of RunFrom at position 3; the run ends as Ends describes; a terminal state runs no stage |
| Orchestrator.FromReport | poc/src/contexts/session/infrastructure/orchestrator.rs:208-292 | stage 5 and the removals, with the outcome, checkpoints, calls and removals of RunFrom at position 4: the report's path, or a panic when no report path was recorded; the run ends as Ends describes; a terminal state runs no stage |
| Orchestrator.RunSession | poc/src/contexts/session/infrastructure/orchestrator.rs:33-293 | the outcome, checkpoints, calls and removals are exactly those SessionRun specifies; besides, a failed directory creation or checkpoint read ends the run before any stage; the saved checkpoints chain from the loaded one and every write but a failing last one succeeded; a terminal checkpoint runs no stage; a success returns the last checkpoint's report, at Completed unless the loaded state had failed, after removing its video and frames; a failure removes nothing |
| Session.LifecycleTable | poc/src/session/mod.rs:41-64 | a state can fail exactly when it is not terminal; start and process are allowed in the same states; completion needs a non-terminal state that is past Created; a terminal state allows nothing |
| Session.StateNamesDistinct | poc/src/session/mod.rs:66-75 | the display names of two states coincide only when the states do |
| Session.Outcome | poc/src/session/mod.rs:183-250 | a transition is refused exactly when its guard fails, with InvalidConfig "Cannot start processing session in state: …", "Cannot complete session in state: …" or "Cannot fail session in state: …" naming the current state |
| Session.RunStaysTerminal | poc/src/session/mod.rs:41-44 | no sequence of operations leaves a terminal state |
| Session.RunNeverRestarts | poc/src/session/mod.rs:46-54 | no sequence of operations returns a session to Created |
| Session.CompletedOnlyAfterProcessing | poc/src/session/mod.rs:56-59 | a session reaches Completed only by passing through Processing |
| Session.Percentage | poc/src/session/mod.rs:107-115 | the fraction is 0 without a total, lies in [0, 1], is 1 exactly when the total is reached, and otherwise is processed over total |
| Session.PercentageMonotone | poc/src/session/mod.rs:107-115 | more items processed never lowers the fraction |
| Session.SessionProgress.constructor | poc/src/session/mod.rs:97-105 | a new progress has the given stage and total, nothing processed and no message |
| Session.SessionProgress.Default | poc/src/session/mod.rs:122-126 | the default progress is stage "Initializing" with total 0 |
| Session.SessionProgress.Update | poc/src/session/mod.rs:107-115 | the processed count and message are replaced and the fraction recomputed against the unchanged total |
| Session.SessionProgress.Increment | poc/src/session/mod.rs:117-119 | the processed count goes up by one, saturating at the 64-bit maximum, and the message is cleared |
| Session.ApplyOp | poc/src/session/mod.rs:183-270 | every operation moves the state as the lifecycle says, never changes id, URL, configuration or creation time, and a refused operation changes nothing |
| Session.CompletionStamped | poc/src/session/mod.rs:201-250 | entering a terminal state stamps the completion time; only complete and fail touch it; a failure records its message |
| Session.MetadataRoundTrip | poc/src/session/mod.rs:264-270 | a value set under a key is read back, and other keys are unaffected |
| Session.MetadataOf | poc/src/session/mod.rs:268-270 | a lookup succeeds exactly for keys present and returns their value |
| Session.Elapsed | poc/src/session/mod.rs:276-285 | the duration runs from creation to completion, or to the clock while active, and is 0 when the end precedes the start |
| Session.ElapsedClock | poc/src/session/mod.rs:276-285 | a finished session's duration does not depend on the clock; an active one's never decreases as the clock advances |
| Session.ProcessingSession.Duration | poc/src/session/mod.rs:276-285 | a session's duration runs from creation to completion, or to the clock while active, and is 0 when the end precedes the start |
| Session.ProcessingSession.constructor | poc/src/session/mod.rs:154-181 | a new session is Created with the given id, URL, configuration and creation time, default progress, no metadata, error or completion |
| Session.ProcessingSession.StartProcessing | poc/src/session/mod.rs:183-199 | the result and new session are the lifecycle's Start step |
| Session.ProcessingSession.Complete | poc/src/session/mod.rs:201-225 | the result and new session are the lifecycle's Complete step |
| Session.ProcessingSession.Fail | poc/src/session/mod.rs:227-250 | the result and new session are the lifecycle's Fail step |
| Session.ProcessingSession.UpdateProgress | poc/src/session/mod.rs:252-262 | the stage and total are replaced and the progress updated, state untouched |
| Session.ProcessingSession.SetMetadata | poc/src/session/mod.rs:264-266 | the key is bound to the value and nothing else changes |
| Session.ProcessingSession.GetMetadata | poc/src/session/mod.rs:268-270 | the lookup is that of the session's metadata |
| Session.ProcessingSession.Apply | poc/src/session/mod.rs:351-368 | an update applied to a stored session is the lifecycle step for that operation |
| Session.ProcessingSession.Clone | poc/src/session/mod.rs:339-349 | a copy returned by the manager is a fresh session equal to the stored one |
| Session.SessionManager.constructor | poc/src/session/mod.rs:316-320 | a new manager holds no sessions |
| Session.SessionManager.CreateSession | poc/src/session/mod.rs:322-337 | a new session is stored under its id, which is returned; other sessions are untouched |
| Session.SessionManager.GetSession | poc/src/session/mod.rs:339-349 | an unknown id gives SessionNotFound; a known one gives a fresh copy of the stored session |
| Session.SessionManager.UpdateSession | poc/src/session/mod.rs:351-368 | an unknown id gives SessionNotFound; a known one has the operation applied with its outcome returned, and no other session changes |
| Session.SessionManager.RemoveSession | poc/src/session/mod.rs:370-380 | an unknown id gives SessionNotFound and changes nothing; a known one is removed and returned |
| Session.SessionManager.ListSessions | poc/src/session/mod.rs:382-388 | the listing holds each stored id exactly once |
| UrlValidator.FirstV | poc/src/contexts/video/infrastructure/url_validator.rs:84-86 | the value of the first query pair named "v", and none exactly when no pair has that name |
| UrlValidator.IdFormatIff | poc/src/contexts/video/infrastructure/url_validator.rs:104-128 | an id passes exactly when it has 10 to 12 characters, all letters, digits, '_' or '-'; every rejection is InvalidUrl |
| UrlValidator.ValidateAndExtract | poc/src/contexts/video/infrastructure/url_validator.rs:30-54 | every rejection is an InvalidUrl error |
| UrlValidator.EmptyUrlRejected | poc/src/contexts/video/infrastructure/url_validator.rs:31-33 | an empty URL is rejected with "URL is empty" before parsing |
| UrlValidator.AcceptedUrl | poc/src/contexts/video/infrastructure/url_validator.rs:30-54 | on success the URL text comes back unchanged, its host is one of the five YouTube hosts, and the id is the typed form of a well-formed id extracted from it |
| UrlValidator.ForeignHostRejected | poc/src/contexts/video/infrastructure/url_validator.rs:38-43 | a host other than the five is rejected with "Not a valid YouTube URL: <url>", whatever the rest of the URL says |
| UrlValidator.ShortLinkId | poc/src/contexts/video/infrastructure/url_validator.rs:68-77 | a youtu.be link gives back the path's id |
| UrlValidator.FirstVWins | poc/src/contexts/video/infrastructure/url_validator.rs:84-86 | on the other hosts the first "v" pair wins over later pairs and over the path |
| UrlValidator.EmbedPathId | poc/src/contexts/video/infrastructure/url_validator.rs:89-96 | without a "v" pair, "/embed/<id>" gives the id |
| UrlValidator.SampleIdWellFormed | poc/src/contexts/video/infrastructure/url_validator.rs:307-313 | the id "dQw4w9WgXcQ" is well formed |
| VideoDomain.ValidateVideoUrl | poc/src/contexts/video/domain/events.rs:4-18 | succeeds exactly for URLs starting with "https://www.youtube.com/" or "https://youtu.be/", carrying the URL and a new id; an empty URL fails with "URL is empty", any other rejection with the URL itself as the message |
| VideoDomain.ExtractVideoId | poc/src/contexts/video/domain/events.rs:20-40 | with "v=" in the URL the id is the text after the first "v=", up to the next '&', the next "v=" or the end, and holds neither; otherwise with "youtu.be/" it is the text after the first "youtu.be/", up to the next '?', the next "youtu.be/" or the end, and holds neither; without either marker it is empty |
| VideoDomain.WatchUrlId | poc/src/contexts/video/domain/events.rs:21-28 | "<prefix>v=<id>" gives back the id when the prefix has no 'v' and the id no '=' or '&' |
| VideoDomain.ShortUrlId | poc/src/contexts/video/domain/events.rs:29-36 | "<prefix>youtu.be/<id>" gives back the id when neither part contains '=', 'y' or, in the id, '?' |
| VideoDomain.SampleWatchUrl | poc/src/contexts/video/domain/events.rs:78-83 | the watch URL of "dQw4w9WgXcQ" extracts that id |
| VideoDomain.VParameterWins | poc/src/contexts/video/domain/events.rs:21-28 | a short link that also carries "v=" yields the parameter, not the path |
| VideoDomain.HandleDownloadVideo | poc/src/contexts/video/domain/handlers.rs:5-23 | fails exactly for an empty output path, with DownloadFailed(0, "Output path is empty"); otherwise the video is "<dir>/video.mp4" with the command's id and the duration |
| VideoDomain.DownloadExample | poc/src/contexts/video/domain/handlers.rs:30-40 | "/tmp" and 180 s give "/tmp/video.mp4" and 180 s |
| Availability.DefaultCheckerConfig | poc/src/contexts/video/infrastructure/availability_checker.rs:69-76 | the default is a 5 s timeout, at most four hours (14400 s) and no minimum |
| Availability.WithTimeout | poc/src/contexts/video/infrastructure/availability_checker.rs:85-89 | sets the timeout and keeps both duration bounds |
| Availability.WithMaxDuration | poc/src/contexts/video/infrastructure/availability_checker.rs:91-95 | sets the maximum duration and keeps the rest |
| Availability.WithMinDuration | poc/src/contexts/video/infrastructure/availability_checker.rs:97-100 | sets the minimum duration and keeps the rest |
| Availability.BuilderExample | poc/src/contexts/video/infrastructure/availability_checker.rs:363-373 | 10 s, at most an hour and at least 10 s, set in a chain, are all kept |
| Availability.PolicyAcceptsIff | poc/src/contexts/video/infrastructure/availability_checker.rs:143-165 | fetched metadata passes exactly when it is within both enabled bounds (0 disables a bound) and not age-restricted, and then comes back unchanged |
| Availability.TooLongFirst | poc/src/contexts/video/infrastructure/availability_checker.rs:146-151 | an over-long video is reported as VideoTooLong(duration, max), even when it is also age-restricted |
| Availability.TooShortBeforeAge | poc/src/contexts/video/infrastructure/availability_checker.rs:153-158 | a video under the minimum is reported as InvalidUrl before the age check |
| Availability.UnboundedOnlyAge | poc/src/contexts/video/infrastructure/availability_checker.rs:160-163 | with both bounds off only the age restriction can reject |
| Availability.DefaultRejectsOverFourHours | poc/src/contexts/video/infrastructure/availability_checker.rs:69-76 | the default bounds reject anything over 14400 s as too long |
| Availability.FetchFailure | poc/src/contexts/video/infrastructure/availability_checker.rs:230-255 | a failed fetch is reported as private, deleted, age-restricted, region-locked, or unavailable under a new id |
| Availability.PrivateWins | poc/src/contexts/video/infrastructure/availability_checker.rs:236-237 | "private video" in the error output, in any case, means VideoPrivate whatever else it says |
| Availability.DeletedUnlessPrivate | poc/src/contexts/video/infrastructure/availability_checker.rs:238-242 | a deletion notice is VideoDeleted unless it also says "private video" |
| Availability.UnmatchedIsUnavailable | poc/src/contexts/video/infrastructure/availability_checker.rs:255 | error text that matches no rule gives VideoUnavailable with the new id |
| Availability.AgeGateSubsumed | poc/src/contexts/video/infrastructure/availability_checker.rs:243-245 | the "age-gate" test can never decide, since such text already contains "age" |
| Availability.FetchMetadata | poc/src/contexts/video/infrastructure/availability_checker.rs:214-262 | a timeout gives NetworkTimeout(timeout); a failed exit gives the classified failure; success means a successful exit whose output decodes to the returned metadata |
| Availability.AvailableMeansFetchedAndAllowed | poc/src/contexts/video/infrastructure/availability_checker.rs:138-166 | accepted metadata is what the tool reported, and it satisfies both bounds and is not age-restricted |
| Availability.CheckStatus | poc/src/contexts/video/infrastructure/availability_checker.rs:178-210 | with metadata the status is AgeRestricted exactly when the video is age-restricted, and Available otherwise |
| Availability.StatusOfText | poc/src/contexts/video/infrastructure/availability_checker.rs:191-208 | an error never reads as Available, and an unclassified one keeps its text as the reason |
| Availability.StatusFirstMatch | poc/src/contexts/video/infrastructure/availability_checker.rs:195-204 | the earliest rule wins: "private" means Private, a deletion notice without it Deleted, and AgeRestricted needs "age" or "sign in" |
| Ocr.DefaultExtractTextCommand | poc/src/contexts/ocr/domain/commands.rs:17-25 | the default command reads English, with an empty image path and a threshold of 0.6 |
| Ocr.ParseWhole | poc/src/contexts/ocr/infrastructure/tesseract.rs:80 | a string of digits parses as a number to its value |
| Ocr.ParseNegative | poc/src/contexts/ocr/infrastructure/tesseract.rs:80-82 | a minus sign before digits parses to the negated value, so Tesseract's -1 rows are rejected |
| Ocr.RowWord | poc/src/contexts/ocr/infrastructure/tesseract.rs:75-91 | a row yields a word only when it has at least twelve tab fields, and the word is field 11 trimmed and non-blank, with a non-negative confidence |
| Ocr.ParseTsv | poc/src/contexts/ocr/infrastructure/tesseract.rs:68-101 | the loop's text and confidence are those of the specification: the words of the rows after the header joined by spaces, and their mean confidence divided by 100, or 0 with no words |
| Ocr.RecognisedStep | poc/src/contexts/ocr/infrastructure/tesseract.rs:74-91 | each row adds its word, if it yields one, to the text and the confidence sum |
| Ocr.RecognisedWords | poc/src/contexts/ocr/infrastructure/tesseract.rs:83-88 | every recognised word is non-blank with a non-negative confidence, and there are no more words than rows |
| Ocr.RecognisedAppend | poc/src/contexts/ocr/infrastructure/tesseract.rs:74-92 | rows are read independently: the words of two blocks of rows are the words of each, concatenated |
| Ocr.RecognisedNone | poc/src/contexts/ocr/infrastructure/tesseract.rs:76-91 | rows yielding no word add nothing |
| Ocr.RecognisedOne | poc/src/contexts/ocr/infrastructure/tesseract.rs:76-91 | a single row yielding a word gives just that word |
| Ocr.TextEmptyIffNoWords | poc/src/contexts/ocr/infrastructure/tesseract.rs:100 | the text is empty exactly when no row yields a word |
| Ocr.ConfidenceInUnitRange | poc/src/contexts/ocr/infrastructure/tesseract.rs:94-98 | with word confidences of at most 100 the result's confidence lies in [0, 1] |
| Ocr.HeaderIgnored | poc/src/contexts/ocr/infrastructure/tesseract.rs:74 | the first line is skipped whatever it holds |
| Ocr.HeaderOnly | poc/src/contexts/ocr/infrastructure/tesseract.rs:124-131 | a header with nothing after it gives no text and confidence 0 |
| Ocr.SampleLayoutRow | poc/src/contexts/ocr/infrastructure/tesseract.rs:112-115 | the four layout rows of the sample have eleven fields and yield nothing |
| Ocr.WordRow | poc/src/contexts/ocr/infrastructure/tesseract.rs:76-88 | a row whose field 10 is a whole number and whose field 11 is a trimmed word yields that word with that confidence |
| Ocr.SampleTsv | poc/src/contexts/ocr/infrastructure/tesseract.rs:108-122 | the sample output gives "Hello World" with confidence 0.85 |
| Ocr.SampleAverage | poc/src/contexts/ocr/infrastructure/tesseract.rs:120-121 | 90 and 80 average to 0.85 and the words join to "Hello World" |
| Ocr.HeaderOnlySample | poc/src/contexts/ocr/infrastructure/tesseract.rs:124-131 | the sample's header alone gives no text and confidence 0 |
| Ocr.TesseractArgs | poc/src/contexts/ocr/infrastructure/tesseract.rs:21-32 | the arguments are the image, the output base, "-l" and the languages joined by "+" when there are languages, and "tsv" last |
| Ocr.EngineResult | poc/src/contexts/ocr/infrastructure/tesseract.rs:13-65 | an engine error passes through; otherwise the result carries the slide id, the languages and the parsed text and confidence |
| Ocr.HandleExtractText | poc/src/contexts/ocr/domain/handlers.rs:8-36 | a missing image fails with "Slide image not found: <path>" before the engine runs; engine errors pass through; a low-confidence event accompanies success exactly when the confidence is strictly below the threshold |
| Ocr.MissingImageIgnoresEngine | poc/src/contexts/ocr/domain/handlers.rs:43-59 | with a missing image no engine's answer matters, and the message contains "not found" |
| Ocr.ConfidenceAtThresholdIsQuiet | poc/src/contexts/ocr/domain/handlers.rs:20-27 | a confidence at or above the threshold gives no low-confidence event |
| Ocr.ParseDecimal | poc/src/contexts/ocr/infrastructure/tesseract.rs:80 | a number the model accepts starts with a digit, a sign or a point, and its value is negative only when a minus sign is written |
| Ocr.ParseFraction | poc/src/contexts/ocr/infrastructure/tesseract.rs:80 | digits, a point and digits parse to the whole part plus the fraction over the matching power of ten |
| Ocr.ParseScientific | poc/src/contexts/ocr/infrastructure/tesseract.rs:80 | digits, an 'e' and exponent digits parse to the number times that power of ten |
| Document.DefaultGenerateDocumentCommand | poc/src/contexts/document/domain/commands.rs:25-37 | the default command titles "Untitled Video", has no URL, duration 0 and no slides, writes "output.md" and includes the timeline |
| Document.SlideCount | poc/src/contexts/document/domain/handlers.rs:18 | the slide count is the number of slides truncated to 32 bits, and exact below 2^32 |
| Document.ImageName | poc/src/contexts/document/domain/handlers.rs:52-56 | the image reference is a non-empty name without '/' |
| Document.RenderMarkdown | poc/src/contexts/document/domain/handlers.rs:17-66 | the assembled text is the specified document: header, timeline when asked for, then the slide details |
| Document.RenderHeader | poc/src/contexts/document/domain/handlers.rs:20-25 | the title and video information lines |
| Document.RenderTimeline | poc/src/contexts/document/domain/handlers.rs:28-43 | the Mermaid block around the timeline nodes |
| Document.RenderTimelineBody | poc/src/contexts/document/domain/handlers.rs:31-41 | one node per slide, with its edge, in slide order |
| Document.RenderEntry | poc/src/contexts/document/domain/handlers.rs:32-40 | the node line of one slide and, above index 1, its edge |
| Document.RenderDetails | poc/src/contexts/document/domain/handlers.rs:47-66 | one section per slide, in slide order |
| Document.ConcatMapStep | poc/src/contexts/document/domain/handlers.rs:31-41 | one more slide appends its piece |
| Document.TimelineStep | poc/src/contexts/document/domain/handlers.rs:31-41 | one more slide appends its timeline entry |
| Document.SectionStep | poc/src/contexts/document/domain/handlers.rs:47-66 | one more slide appends its section |
| Document.HandleGenerateDocument | poc/src/contexts/document/domain/handlers.rs:8-82 | the handler's result and file-system calls are those of the specification |
| Document.WriteDocument | poc/src/contexts/document/domain/handlers.rs:69-75 | the parent directory is created first, when there is one, then the file written; either failure is a FileSystemError carrying the reason |
| Document.NoSlidesNoFile | poc/src/contexts/document/domain/handlers.rs:11-15 | no slides gives InternalError "Cannot generate document with no slides" and no file-system call |
| Document.SuccessWritesDocument | poc/src/contexts/document/domain/handlers.rs:68-81 | success means the whole document was written to the output path as the last call, and the event names that path, the video and the slide count |
| Document.StartsWithTitle | poc/src/contexts/document/domain/handlers.rs:21 | the document opens with "# <title>" and a blank line |
| Document.TimelineByFlag | poc/src/contexts/document/domain/handlers.rs:28-46 | with the flag the Mermaid graph follows the header; without it the slide details follow the header directly |
| Document.SectionsInOrder | poc/src/contexts/document/domain/handlers.rs:31-66 | the sections and timeline nodes of two slide lists are those of each, in order |
| Document.ConcatMapAppend | poc/src/contexts/document/domain/handlers.rs:47-66 | the pieces of two slide lists are those of each, in order |
| Document.SectionShape | poc/src/contexts/document/domain/handlers.rs:48-65 | every section ends with the rule line, shows the image by its file name, and holds the trimmed text or "*No text detected.*" |
| Document.SectionSplit | poc/src/contexts/document/domain/handlers.rs:47-66 | the details are the sections before slide k, slide k's section and the sections after it |
| Document.SectionInDocument | poc/src/contexts/document/domain/handlers.rs:47-66 | every slide's section appears in the document |
| Document.SectionAfter | poc/src/contexts/document/domain/handlers.rs:46-66 | whatever precedes the details, each slide's section follows it |
| Document.TimelineEdge | poc/src/contexts/document/domain/handlers.rs:32-40 | a slide above index 1 is linked from the index before it; index 1 or below has no edge |
| Config.NewConfig | poc/src/shared/domain/config.rs:53-63 | a new configuration keeps the URL and takes interval 5.0, threshold 0.85, output ".", languages ["eng"], no timestamps and 500 MB |
| Config.UnsupportedErrorsSnoc | poc/src/shared/domain/config.rs:96-106 | the loop over the codes adds one message for each unsupported code, in order |
| Config.Validate | poc/src/shared/domain/config.rs:74-125 | the loop-built verdict is the specified one: every failing check's message joined by "; " |
| Config.UnsupportedErrorsEmptyIff | poc/src/shared/domain/config.rs:96-106 | no code message exactly when every code is supported |
| Config.UnsupportedErrorsAppend | poc/src/shared/domain/config.rs:96-106 | the code messages of two lists are those of each, in order |
| Config.ValidationIff | poc/src/shared/domain/config.rs:74-125 | a configuration passes exactly when interval, threshold, languages and memory are all in range; failure is InvalidConfig |
| Config.EveryFailureReported | poc/src/shared/domain/config.rs:74-125 | there is one message per failing check, the interval's first, and every one appears in the error text |
| Config.DefaultValid | poc/src/shared/domain/config.rs:53-63 | the default configuration passes validation |
| Config.Validated | poc/src/shared/domain/config.rs:133-136 | the configuration itself is returned exactly when valid, and otherwise the joined messages |
| Config.Build | poc/src/shared/domain/config.rs:218-236 | no URL fails with "YouTube URL is required"; otherwise unset fields take their defaults and the result is valid or an InvalidConfig |
| Config.BuildDefaults | poc/src/shared/domain/config.rs:218-236 | a builder given only a URL builds the default configuration |
| Config.BuildExample | poc/src/shared/domain/config.rs:399-411 | the builder's example yields its interval, threshold and timestamps with the other defaults |
| Config.BuildRejectsInterval | poc/src/shared/domain/config.rs:419-426 | an out-of-range interval makes building fail |
| Cli.DefaultArgs | poc/src/cli/mod.rs:218-230 | the default arguments have no URL and otherwise the configuration's defaults |
| Cli.FirstUnsupported | poc/src/cli/mod.rs:164-173 | no code is reported exactly when all are supported; otherwise the reported code is unsupported and every earlier code is supported |
| Cli.FirstUnsupportedLeads | poc/src/cli/mod.rs:164-173 | the code the arguments reject is the one behind the configuration's first code message |
| Cli.ValidateAgreesWithConfig | poc/src/cli/mod.rs:143-189 | the arguments pass exactly when their configuration is valid and the output directory check passes; a range failure is an InvalidConfig; a valid configuration defers to the directory check |
| Cli.Validate | poc/src/cli/mod.rs:143-189 | the arguments pass exactly when the interval is within 0.1..60, the threshold within 0..1, at least one language is given and all are supported, the memory threshold is at least 100 MB and the directory check passes; every other failure is an InvalidConfig |
| Cli.DirectoryCheckedLast | poc/src/cli/mod.rs:143-189 | the output directory is not consulted when an earlier check fails |
| Cli.ToConfig | poc/src/cli/mod.rs:200-215 | the conversion succeeds exactly when the arguments pass, carries all seven fields over, and otherwise returns the validation error |
| Cli.DefaultArgsValid | poc/src/cli/mod.rs:218-230 | the default arguments pass exactly when "." offers 500 MB |
| Cli.ToConfigExample | poc/src/cli/mod.rs:389-408 | the conversion's example carries URL, interval, threshold, directory, language, timestamps and memory over |
| Dependencies.DigitRunLength | poc/src/shared/infrastructure/dependencies.rs:317-318 | the leading run of a string is all digits and stops at a non-digit or the end |
| Dependencies.DigitPieces | poc/src/shared/infrastructure/dependencies.rs:317-318 | splitting at non-digits gives at least one piece, each made of digits only |
| Dependencies.NumbersOf | poc/src/shared/infrastructure/dependencies.rs:317-319 | the components kept are those that parse as u32, so each is below 2^32 |
| Dependencies.CompareFrom | poc/src/shared/infrastructure/dependencies.rs:325-336 | the comparison is 0 exactly when all positions agree, and otherwise the difference at the first position where they differ |
| Dependencies.CompareVersions | poc/src/shared/infrastructure/dependencies.rs:315-337 | the loop's result is the corrected comparison of the two versions' components, zero-padded to the longer |
| Dependencies.BoundIrrelevant | poc/src/shared/infrastructure/dependencies.rs:325-336 | comparing further than the longer version changes nothing |
| Dependencies.CompareSelf | poc/src/shared/infrastructure/dependencies.rs:431-444 | every version equals itself |
| Dependencies.CompareAntisymmetric | poc/src/shared/infrastructure/dependencies.rs:431-444 | swapping the versions negates the result |
| Dependencies.PaddingIrrelevant | poc/src/shared/infrastructure/dependencies.rs:327-329 | versions that agree once padded with zeros compare alike against everything |
| Dependencies.TrailingZero | poc/src/shared/infrastructure/dependencies.rs:437-441 | a trailing zero component ("4.0" against "4.0.0") changes nothing |
| Dependencies.CompareTransitive | poc/src/shared/infrastructure/dependencies.rs:306-312 | "at least as new" is transitive |
| Dependencies.WrappingSubI32 | poc/src/shared/infrastructure/dependencies.rs:332 | the i32 subtraction of the components, wrapped, stays within i32 |
| Dependencies.AsWrittenAgreesBelow | poc/src/shared/infrastructure/dependencies.rs:325-336 | with every component below 2^31 the i32 arithmetic gives the corrected result |
| Dependencies.WrapCounterexample | poc/src/shared/infrastructure/dependencies.rs:332 | as written, version "3000000000" compares below "1"; corrected, above it |
| Dependencies.RequirementMonotone | poc/src/shared/infrastructure/dependencies.rs:306-312 | a version at least as new as one that meets the minimum also meets it |
| Dependencies.FirstLineVersion | poc/src/shared/infrastructure/dependencies.rs:268-277 | yt-dlp and Tesseract report "No version output found" exactly when there is no line |
| Dependencies.FfmpegVersion | poc/src/shared/infrastructure/dependencies.rs:279-290 | FFmpeg's version is found exactly when some line has a word after "version ", and is that of the first such line |
| Dependencies.ParseFfmpegVersion | poc/src/shared/infrastructure/dependencies.rs:279-290 | the loop over the lines gives the FFmpeg version of the specification |
| Dependencies.GetVersion | poc/src/shared/infrastructure/dependencies.rs:231-262 | when the tool succeeds with its primary flag ("-version" for FFmpeg, "--version" otherwise) the version is parsed from that output |
| Dependencies.StatusMessageBranches | poc/src/shared/infrastructure/dependencies.rs:121-143 | every message starts with the tool's name; a failure ends with the installation help; a missing tool says so; a working tool's message names its version and ends with ")." |
| Dependencies.WithCustomPath | poc/src/shared/infrastructure/dependencies.rs:159-162 | the tool gains a custom path and no other tool's entry is lost |
| Dependencies.CommandPath | poc/src/shared/infrastructure/dependencies.rs:219-224 | the custom path when one was given, otherwise the tool's command name |
| Dependencies.CustomPathOverrides | poc/src/shared/infrastructure/dependencies.rs:159-224 | a custom path is used for its own tool and for no other |
| Dependencies.Check | poc/src/shared/infrastructure/dependencies.rs:164-193 | the tool is available when a version is found or it starts at all, passes exactly when a version is found and meets the minimum under the corrected comparison CompareVersions (not the program's wrapping one, see Findings), and has a path exactly when available |
| Dependencies.FailureMessages | poc/src/shared/infrastructure/dependencies.rs:206-211 | no failure message exactly when every check passes |
| Dependencies.FailureMessagesInclude | poc/src/shared/infrastructure/dependencies.rs:206-211 | every failing check's status message is among the failure messages |
| Dependencies.ValidateResults | poc/src/shared/infrastructure/dependencies.rs:204-217 | validation passes exactly when every check does, and otherwise is ExternalDependencyUnavailable |
| Dependencies.ValidateReportsEach | poc/src/shared/infrastructure/dependencies.rs:204-217 | the error names every failing tool's status message |
| Dependencies.ValidateAllIff | poc/src/shared/infrastructure/dependencies.rs:195-217 | all three tools must pass |
| Dependencies.ValidateThree | poc/src/shared/infrastructure/dependencies.rs:195-209 | three results pass together exactly when each does |
| Errors.CategoryName | poc/src/shared/domain/error.rs:28-41 | the two two-word categories display as "File System" and "External Dependency" |
| Errors.Category | poc/src/shared/domain/error.rs:159-194 | each category holds exactly its variants: Network the unavailable video, failed download and timeout; Configuration the invalid configuration and template errors; Memory the two memory errors; External Dependency the three dependency errors; File System the three directory errors, disk space, permission and the general file-system error |
| Errors.ValidationCategoryIff | poc/src/shared/domain/error.rs:159-194 | an error is a Validation error exactly when it is an invalid URL or one of the video availability verdicts |
| Errors.UnknownCategoryIff | poc/src/shared/domain/error.rs:159-194 | only the internal error is uncategorised |
| Errors.Escape | poc/src/shared/domain/error.rs:76 | a character with nothing to escape stands for itself, one that needs escaping becomes a sequence starting with a backslash, and no escape holds a line break |
| Errors.DebugBody | poc/src/shared/domain/error.rs:76 | the escaped text is the string itself when nothing in it needs escaping, and never holds a line break |
| Errors.DebugString | poc/src/shared/domain/error.rs:76 | the debug form is enclosed in double quotes, never holds a line break, and is the string between quotes when nothing in it needs escaping |
| Errors.DisplayNamesArguments | poc/src/shared/domain/error.rs:49-153 | every Display text contains each free-text argument of its error, the dependency name and reason and the name and both versions included, and ends with the argument it quotes; the unwritable directory appears in its debug form, which is the directory between quotes when nothing needs escaping |
| Errors.ShortMessage | poc/src/shared/domain/error.rs:462-464 | the short message is the Display text, so it names every free-text argument and ends with the quoted one |
| Errors.UserMessage | poc/src/shared/domain/error.rs:200-459 | the guidance of every variant that quotes a text contains that text and ends with the variant's fixed advice |
| Errors.UserMessageNamesDependency | poc/src/shared/domain/error.rs:341-347 | the failed-check guidance names the dependency as well as the reason |
| Errors.UserMessageNamesVersions | poc/src/shared/domain/error.rs:349-358 | the version-mismatch guidance names the dependency, the required version and the version found |
| Errors.DisplayExamples | poc/src/shared/domain/error.rs:49-59 | an invalid URL displays as "Invalid YouTube URL: " and the URL, a download failed after 3 retries as "Download failed after 3 retries: " and the reason |
| Logging.LevelName | poc/src/shared/infrastructure/logging.rs:96-106 | every level displays as a non-empty lower-case name |
| Logging.ParseLevel | poc/src/shared/infrastructure/logging.rs:84-94 | a rejected string gives "Invalid log level: " followed by the string |
| Logging.ParseDisplayRoundTrip | poc/src/shared/infrastructure/logging.rs:81-106 | parsing a level's displayed name gives the level back |
| Logging.ParseIff | poc/src/shared/infrastructure/logging.rs:84-94 | a string parses to a level exactly when its lower-case form is that level's name |
| Logging.LowerIdempotent | poc/src/shared/infrastructure/logging.rs:86 | lower-casing twice is lower-casing once |
| Logging.ParseIgnoresCase | poc/src/shared/infrastructure/logging.rs:86 | a string and its lower-case form parse alike |
| Logging.ParseUpperCaseExamples | poc/src/shared/infrastructure/logging.rs:403-408 | "ERROR", "Error" and "INFO" parse to Error, Error and Info |
| Logging.DefaultLoggingConfig | poc/src/shared/infrastructure/logging.rs:130-141 | the defaults are console Info, file Debug, "./logs", 10 MB, 5 files and system information on |
| Logging.WithConsoleLevel | poc/src/shared/infrastructure/logging.rs:150-154 | the console level is set and every other field kept |
| Logging.WithFileLevel | poc/src/shared/infrastructure/logging.rs:156-160 | the file level is set and every other field kept |
| Logging.WithLogDirectory | poc/src/shared/infrastructure/logging.rs:162-166 | the directory is set and every other field kept |
| Logging.WithMaxFileSizeMb | poc/src/shared/infrastructure/logging.rs:168-172 | the size limit is set and every other field kept |
| Logging.WithMaxFiles | poc/src/shared/infrastructure/logging.rs:174-178 | the file count is set and every other field kept |
| Logging.WithIncludeSystemInfo | poc/src/shared/infrastructure/logging.rs:180-184 | the system-information flag is set and every other field kept |
| Logging.SettersCommute | poc/src/shared/infrastructure/logging.rs:150-184 | setters of different fields commute |
| Logging.NewSessionContext | poc/src/shared/infrastructure/logging.rs:34-41 | a new context has no session, operation or module |
| Logging.WithSessionId | poc/src/shared/infrastructure/logging.rs:43-47 | the session is set and the other two fields kept |
| Logging.WithOperation | poc/src/shared/infrastructure/logging.rs:49-53 | the operation is set and the other two fields kept |
| Logging.WithModule | poc/src/shared/infrastructure/logging.rs:55-59 | the module is set and the other two fields kept |

## Left out

- Subprocesses (yt-dlp, FFmpeg, Tesseract and the version probes) are function-typed parameters that return either output or an error. Their command lines are not modelled.
- Image decoding, Lanczos resizing, grey-scale conversion and JPEG re-encoding are left out. The hash rules start from an already-downsampled grid of 0..255 samples.
- `compute_ahash` and the DCT-based perceptual hash are not modelled beyond their bit rule over a given grid.
- Directory walks, `create_dir_all`, disk-space and write-probe queries and report writes are parameters or recorded operations. Only slide copying runs over a modelled map-based file system.
- Checkpoint JSON and the serde round trips are parameters of the orchestrator, as are session persist and recover. `ProcessingSession::to_json` and `from_json` are not modelled.
- The clock, UUID generation and `Id::from_str` hashing are left out. Times and ids are supplied by the caller.
- Locks, atomics, async and the tokio progress handle are left out. The session manager, memory peak and progress are plain single-threaded fields.
- Logging, tracing spans, `init_logging`, the progress reporter and clap argument parsing are side effects without behaviour to prove.
- `f64` rounding, NaN and the `{}`, `{:.0}`, `{:.2}` and `{:?}` formats are left out. Values are `real`, and formatting is an uninterpreted `Formats` parameter.
- Timestamp and percentage text is likewise produced by the `Formats` parameter.
- Overflow panics of debug builds are left out. Unsigned counters wrap or saturate as the release build does, where the program relies on it.
- `String::from_utf8_lossy` and byte lengths of non-ASCII text are left out. Strings are sequences of characters, and hashes, ids and URLs are treated as ASCII.
- `to_lowercase` and `trim` are modelled for ASCII only.
- `update_session` takes an arbitrary closure in the program. The model applies one `SessionOp`: start, complete, fail, progress update or metadata update.
- `Dependency::troubleshooting_steps`, `check_dependencies` and `get_dependency_info` are left out. They are fixed text, or wrappers over `validate_all` and `check_all` with the real environment.
- `MemoryMonitor::check_and_warn`, `validate_memory_requirement`, `get_available_memory_mb` and `check_memory_sufficient` read the operating system's memory statistics and only log; they are left out.
- The current usage is a parameter of the memory monitor.
- `create_too_many_errors_event` and `create_frames_cleaned_event` are record constructors with no behaviour beyond copying their arguments; they are left out.
- Errors.ShortMessage: does not state that the message is a single line. The arguments' debug forms are proved free of line breaks, but proving it of the fixed texts means checking each of some 1,500 literal characters, which is beyond the solver budget.
- `FileSystemError` is raised by the document, slide and orchestrator code but has no variant in the program's error enum (poc/src/shared/domain/error.rs:47-153). The model adds it with the Display text "File system error: " and the message, the File System category and guidance that quotes the message; these are the model's choice.
- Errors.DebugString: escapes ASCII the way `{:?}` does: `\"`, `\\`, `\n`, `\r`, `\t`, `\0` and `\u{..}` for other control characters. Non-ASCII characters that Rust also escapes (unprintable or grapheme-extending ones) are copied unchanged.
- Ocr.ParseDecimal: finite numbers only. The "inf", "infinity" and "nan" spellings that `f64::from_str` also accepts have no `real` value and are rejected.
- Dependencies.StatusMessageBranches: states the three message shapes through prefixes, suffixes and containment rather than as the full formatted text.
- Dependencies.GetVersion: states the result only when the primary flag succeeds; the retry with the secondary flag is in the body but not in the contract.
- The dedup command carries both `framesDir` and `frames`. `IdentifyUniqueSlidesCommand` declares only `frames_dir` (poc/src/contexts/dedup/domain/commands.rs:10), while its handler and the orchestrator read and set a `frames` field (poc/src/contexts/dedup/domain/handlers.rs:11-18, poc/src/contexts/session/infrastructure/orchestrator.rs:191). The model keeps both fields so that these uses agree.
- The orchestrator's collaborators (URL check, metadata fetch, download, frame extraction, hashing, OCR and rendering) are function-typed parameters that may fail.
- Deleting the video and frames after a run is recorded as an operation whose failure is ignored.
- The mock availability checker and `check_ytdlp_available` are left out.
- `AvailabilityChecker::check_availability`'s subprocess call is a parameter. Only its policy and the stderr classification are modelled.
- `migrate_stories.py`, `main.rs`, the event bus and the session-context handlers are glue outside the modelled core.
- Dependencies.Check: `versionOk` uses the corrected comparison `CompareVersions`. The program's `check_version_requirement` (poc/src/shared/infrastructure/dependencies.rs:306-312) uses the wrapping `compare_versions`. So a found version "3000000000" against the minimum "1" passes in the model but fails in the program (`Dependencies.WrapCounterexample`).
- The orchestrator's `preserve` collaborator stands for `SlideSelector::preserve_slides` (poc/src/contexts/dedup/infrastructure/slide_selector.rs:11). That function is modelled on its own as `SlideSelector.PreserveSlides`, over the map-based file system. The run only takes its result, because threading the file system through every stage would make the run's model much larger.

## Findings

| source | as written | input that shows it | evidently intended | confidence | as-written member | corrected member |
|---|---|---|---|---|---|---|
| poc/src/contexts/frame/infrastructure/frame_storage.rs:286-288 | `cache_frame` adds the new image's size to `current_cache_bytes` after `insert`, even when the insert replaces an image already cached under the same id | cache 1 byte under id A, then 2 bytes under id A, with a 100 MiB budget: the count is 3 while 2 bytes are cached | the count equals the bytes actually cached, so the replaced image's size is subtracted | not executed | FrameStorage.CacheDriftExample | FrameStorage.FrameStorageOptimizer.CacheFrameCorrected |
| poc/src/shared/infrastructure/dependencies.rs:332 | `compare_versions` returns `(p1 as i32) - (p2 as i32)` for u32 components, so a component of 2^31 or more turns negative | "3000000000" against "1" compares below it | the sign of the result follows the numeric order of the components | not executed | Dependencies.WrapCounterexample | Dependencies.CompareVersions |
