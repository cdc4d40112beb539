// The extraction configuration: its defaults, its validation (which collects
// every failing check into one message) and its builder.

module Config {
  import opened Strings
  import opened Errors
  import opened Formatting

  datatype ExtractionConfig = ExtractionConfig(
    youtubeUrl: string,
    interval: real,            // seconds between extracted frames
    threshold: real,           // similarity above which frames are duplicates
    outputDir: string,
    languages: seq<string>,    // OCR language codes
    timestamps: bool,
    memoryThresholdMb: nat)

  /** `get_supported_languages`: the Tesseract codes accepted, in order. */
  const SupportedLanguages: seq<string> :=
    ["eng", "spa", "fra", "deu", "jpn", "chi_sim", "chi_tra", "kor",
     "rus", "ara", "hin", "por", "ita", "nld", "pol", "tur"]

  /** `ExtractionConfig::new`: the URL with every other field at its default. */
  function NewConfig(youtubeUrl: string): (c: ExtractionConfig)
    ensures c.youtubeUrl == youtubeUrl && c.interval == 5.0 && c.threshold == 0.85
    ensures c.outputDir == "." && c.languages == ["eng"] && !c.timestamps && c.memoryThresholdMb == 500
  {
    ExtractionConfig(youtubeUrl, 5.0, 0.85, ".", ["eng"], false, 500)
  }

  predicate IntervalInRange(x: real) { 0.1 <= x <= 60.0 }

  predicate ThresholdInRange(x: real) { 0.0 <= x <= 1.0 }

  /** What a valid configuration satisfies. */
  predicate Valid(c: ExtractionConfig)
  {
    IntervalInRange(c.interval) && ThresholdInRange(c.threshold) &&
    c.languages != [] && (forall k :: 0 <= k < |c.languages| ==> Supported(c.languages[k])) &&
    c.memoryThresholdMb >= 100
  }

  // The messages of the individual checks.

  function IntervalError(f: Formats, x: real): string
  {
    "Invalid interval: " + f.plain(x) + ". Must be between 0.1 and 60.0 seconds."
  }

  function ThresholdError(f: Formats, x: real): string
  {
    "Invalid threshold: " + f.plain(x) + ". Must be between 0.0 and 1.0."
  }

  const NoLanguageError: string := "At least one OCR language must be specified."

  /** `get_supported_languages().join(", ")`, written out. */
  const SupportedList: string :=
    "eng, spa, fra, deu, jpn, chi_sim, chi_tra, kor, rus, ara, hin, por, ita, nld, pol, tur"

  function UnsupportedLanguageError(lang: string): string
  {
    "Unsupported language code: " + lang + ". Supported languages: " + SupportedList
  }

  function MemoryError(mb: nat): string
  {
    "Invalid memory threshold: " + NatToString(mb) + " MB. Must be at least 100 MB."
  }

  predicate Supported(lang: string)
  {
    lang in SupportedLanguages
  }

  /** One message per unsupported code, in the order of the codes. */
  function UnsupportedErrors(langs: seq<string>): seq<string>
  {
    if langs == [] then []
    else
      var last := langs[|langs| - 1];
      UnsupportedErrors(langs[..|langs| - 1]) + (if Supported(last) then [] else [UnsupportedLanguageError(last)])
  }

  lemma UnsupportedErrorsSnoc(langs: seq<string>, i: nat)
    requires i < |langs|
    ensures UnsupportedErrors(langs[..i + 1]) ==
      UnsupportedErrors(langs[..i]) + (if Supported(langs[i]) then [] else [UnsupportedLanguageError(langs[i])])
  {
    assert langs[..i + 1][..i] == langs[..i];
  }

  function LanguageErrors(langs: seq<string>): seq<string>
  {
    if langs == [] then [NoLanguageError] else UnsupportedErrors(langs)
  }

  /** Every failing check's message, in the order the checks run. */
  function ConfigErrors(c: ExtractionConfig, f: Formats): seq<string>
  {
    (if IntervalInRange(c.interval) then [] else [IntervalError(f, c.interval)]) +
    (if ThresholdInRange(c.threshold) then [] else [ThresholdError(f, c.threshold)]) +
    LanguageErrors(c.languages) +
    (if c.memoryThresholdMb >= 100 then [] else [MemoryError(c.memoryThresholdMb)])
  }

  /** The verdict of `validate`: all messages joined by "; ". */
  function Validation(c: ExtractionConfig, f: Formats): Result<()>
  {
    var errors := ConfigErrors(c, f);
    if errors == [] then Ok(()) else Err(InvalidConfig(Join(errors, "; ")))
  }

  /** `ExtractionConfig::validate`: every check runs and pushes its message. */
  method Validate(c: ExtractionConfig, f: Formats) returns (r: Result<()>)
    ensures r == Validation(c, f)
  {
    var errors: seq<string> := [];
    if c.interval < 0.1 || c.interval > 60.0 {
      errors := errors + [IntervalError(f, c.interval)];
    }
    if c.threshold < 0.0 || c.threshold > 1.0 {
      errors := errors + [ThresholdError(f, c.threshold)];
    }
    ghost var checked := errors;
    assert checked == (if IntervalInRange(c.interval) then [] else [IntervalError(f, c.interval)]) +
                      (if ThresholdInRange(c.threshold) then [] else [ThresholdError(f, c.threshold)]);
    if c.languages == [] {
      errors := errors + [NoLanguageError];
    } else {
      var unsupported: seq<string> := [];
      for i := 0 to |c.languages|
        invariant unsupported == UnsupportedErrors(c.languages[..i])
      {
        UnsupportedErrorsSnoc(c.languages, i);
        if !Supported(c.languages[i]) {
          unsupported := unsupported + [UnsupportedLanguageError(c.languages[i])];
        }
      }
      assert c.languages[..|c.languages|] == c.languages;
      errors := errors + unsupported;
    }
    assert errors == checked + LanguageErrors(c.languages);
    if c.memoryThresholdMb < 100 {
      errors := errors + [MemoryError(c.memoryThresholdMb)];
    }
    assert errors == ConfigErrors(c, f);
    if errors != [] {
      return Err(InvalidConfig(Join(errors, "; ")));
    }
    return Ok(());
  }

  /** No message for the codes exactly when every code is supported. */
  lemma {:induction false} UnsupportedErrorsEmptyIff(langs: seq<string>)
    ensures UnsupportedErrors(langs) == [] <==> forall k :: 0 <= k < |langs| ==> Supported(langs[k])
  {
    if langs != [] {
      var init := langs[..|langs| - 1];
      UnsupportedErrorsEmptyIff(init);
      assert forall k :: 0 <= k < |init| ==> init[k] == langs[k];
    }
  }

  /** The codes' messages split along the list: each code adds its own. */
  lemma {:induction false} UnsupportedErrorsAppend(a: seq<string>, b: seq<string>)
    ensures UnsupportedErrors(a + b) == UnsupportedErrors(a) + UnsupportedErrors(b)
  {
    if b == [] {
      assert a + b == a;
    } else {
      var init := b[..|b| - 1];
      UnsupportedErrorsAppend(a, init);
      assert (a + b)[..|a + b| - 1] == a + init;
    }
  }

  /** A configuration passes exactly when it is valid; otherwise the error
      is an invalid-configuration error. */
  lemma ValidationIff(c: ExtractionConfig, f: Formats)
    ensures Validation(c, f).Ok? <==> Valid(c)
    ensures ConfigErrors(c, f) == [] <==> Valid(c)
    ensures Validation(c, f).Err? ==> Validation(c, f).error.InvalidConfig?
  {
    UnsupportedErrorsEmptyIff(c.languages);
  }

  /** Nothing stops at the first failure: the message reports every failing
      check, one message each, the interval's first when it fails. */
  lemma EveryFailureReported(c: ExtractionConfig, f: Formats)
    ensures |ConfigErrors(c, f)| ==
      (if IntervalInRange(c.interval) then 0 else 1) + (if ThresholdInRange(c.threshold) then 0 else 1) +
      |LanguageErrors(c.languages)| + (if c.memoryThresholdMb >= 100 then 0 else 1)
    ensures !IntervalInRange(c.interval) ==> ConfigErrors(c, f)[0] == IntervalError(f, c.interval)
    ensures Validation(c, f).Err? ==>
      forall k :: 0 <= k < |ConfigErrors(c, f)| ==> Contains(Validation(c, f).error.msg, ConfigErrors(c, f)[k])
  {
    var errors := ConfigErrors(c, f);
    forall k | 0 <= k < |errors| && errors != []
      ensures Contains(Join(errors, "; "), errors[k])
    {
      JoinContainsPart(errors, "; ", k);
    }
  }

  /** The default configuration is valid. */
  lemma DefaultValid(youtubeUrl: string, f: Formats)
    ensures Validation(NewConfig(youtubeUrl), f) == Ok(())
  {
    var c := NewConfig(youtubeUrl);
    assert Supported(c.languages[0]);
    ValidationIff(c, f);
  }

  /** `validated`: the configuration itself when it is valid. */
  function Validated(c: ExtractionConfig, f: Formats): (r: Result<ExtractionConfig>)
    ensures r.Ok? <==> Valid(c)
    ensures r.Ok? ==> r.value == c
    ensures r.Err? ==> r.error == InvalidConfig(Join(ConfigErrors(c, f), "; "))
  {
    ValidationIff(c, f);
    match Validation(c, f)
    case Err(e) => Err(e)
    case Ok(_) => Ok(c)
  }

  /** The builder's optional fields. */
  datatype ConfigBuilder = ConfigBuilder(
    youtubeUrl: Option<string>,
    interval: Option<real>,
    threshold: Option<real>,
    outputDir: Option<string>,
    languages: Option<seq<string>>,
    timestamps: Option<bool>,
    memoryThresholdMb: Option<nat>)

  /** `ConfigBuilder::new`: nothing set. */
  const EmptyBuilder: ConfigBuilder := ConfigBuilder(None, None, None, None, None, None, None)

  function OrElse<T>(o: Option<T>, d: T): T
  {
    if o.Some? then o.value else d
  }

  /** `build`: the URL is required; every other unset field takes its default,
      and the result is validated. */
  function Build(b: ConfigBuilder, f: Formats): (r: Result<ExtractionConfig>)
    ensures b.youtubeUrl.None? ==> r == Err(InvalidConfig("YouTube URL is required"))
    ensures r.Ok? ==> b.youtubeUrl == Some(r.value.youtubeUrl) && Valid(r.value)
    ensures r.Ok? ==>
      var d := NewConfig(r.value.youtubeUrl);
      r.value.interval == OrElse(b.interval, d.interval) && r.value.threshold == OrElse(b.threshold, d.threshold) &&
      r.value.outputDir == OrElse(b.outputDir, d.outputDir) && r.value.languages == OrElse(b.languages, d.languages) &&
      r.value.timestamps == OrElse(b.timestamps, d.timestamps) &&
      r.value.memoryThresholdMb == OrElse(b.memoryThresholdMb, d.memoryThresholdMb)
    ensures r.Err? && b.youtubeUrl.Some? ==> r.error.InvalidConfig?
  {
    match b.youtubeUrl
    case None => Err(InvalidConfig("YouTube URL is required"))
    case Some(url) =>
      var d := NewConfig(url);
      Validated(ExtractionConfig(url, OrElse(b.interval, d.interval), OrElse(b.threshold, d.threshold),
                                 OrElse(b.outputDir, d.outputDir), OrElse(b.languages, d.languages),
                                 OrElse(b.timestamps, d.timestamps), OrElse(b.memoryThresholdMb, d.memoryThresholdMb)), f)
  }

  /** A builder given only a URL builds the default configuration. */
  lemma BuildDefaults(url: string, f: Formats)
    ensures Build(EmptyBuilder.(youtubeUrl := Some(url)), f) == Ok(NewConfig(url))
  {
    DefaultValid(url, f);
  }

  /** The builder's own example: interval 10, threshold 0.9 and timestamps on. */
  lemma BuildExample(url: string, f: Formats)
    ensures Build(EmptyBuilder.(youtubeUrl := Some(url), interval := Some(10.0), threshold := Some(0.9),
                                timestamps := Some(true)), f)
            == Ok(ExtractionConfig(url, 10.0, 0.9, ".", ["eng"], true, 500))
  {
    assert Supported("eng");
  }

  /** An out-of-range interval set on the builder makes `build` fail. */
  lemma BuildRejectsInterval(url: string, x: real, f: Formats)
    requires !IntervalInRange(x)
    ensures Build(EmptyBuilder.(youtubeUrl := Some(url), interval := Some(x)), f).Err?
  {
  }
}
