// The command-line arguments: their defaults, their validation (which stops
// at the first failing check) and their conversion into a configuration.
// The output-directory check reads the file system and is supplied by the
// caller as `checkDir`, given the directory and the space it must offer.

module Cli {
  import opened Strings
  import opened Errors
  import opened Formatting
  import opened Config

  datatype CliArgs = CliArgs(
    youtubeUrl: string,
    interval: real,
    threshold: real,
    outputDir: string,
    languages: seq<string>,
    timestamps: bool,
    memoryThresholdMb: nat)

  /** `CliArgs::default`: no URL, every other field as in the configuration's defaults. */
  function DefaultArgs(): (a: CliArgs)
    ensures a.youtubeUrl == "" && AsConfig(a) == NewConfig("")
  {
    CliArgs("", 5.0, 0.85, ".", ["eng"], false, 500)
  }

  /** The configuration with the arguments' seven fields. */
  function AsConfig(a: CliArgs): ExtractionConfig
  {
    ExtractionConfig(a.youtubeUrl, a.interval, a.threshold, a.outputDir, a.languages, a.timestamps, a.memoryThresholdMb)
  }

  /** The first code that is not supported, if any. */
  function FirstUnsupported(langs: seq<string>): (r: Option<string>)
    ensures r.None? <==> forall k :: 0 <= k < |langs| ==> Supported(langs[k])
    ensures r.Some? ==> exists k :: 0 <= k < |langs| && langs[k] == r.value && !Supported(r.value) &&
                                    forall j :: 0 <= j < k ==> Supported(langs[j])
  {
    if langs == [] then None
    else if !Supported(langs[0]) then Some(langs[0])
    else
      var r := FirstUnsupported(langs[1..]);
      assert forall k :: 0 <= k < |langs[1..]| ==> langs[1..][k] == langs[k + 1];
      r
  }

  /** `CliArgs::validate`: interval, threshold, languages, memory, each
      returning at once on failure, and only then the output directory. */
  function Validate(a: CliArgs, f: Formats, checkDir: (string, nat) -> Result<()>): (r: Result<()>)
    ensures r.Ok? <==> 0.1 <= a.interval <= 60.0 && 0.0 <= a.threshold <= 1.0 && a.languages != [] &&
                       (forall k :: 0 <= k < |a.languages| ==> Supported(a.languages[k])) &&
                       a.memoryThresholdMb >= 100 && checkDir(a.outputDir, a.memoryThresholdMb).Ok?
    ensures r.Err? ==> r.error.InvalidConfig? || r == checkDir(a.outputDir, a.memoryThresholdMb)
  {
    if a.interval < 0.1 || a.interval > 60.0 then Err(InvalidConfig(IntervalError(f, a.interval)))
    else if a.threshold < 0.0 || a.threshold > 1.0 then Err(InvalidConfig(ThresholdError(f, a.threshold)))
    else if a.languages == [] then Err(InvalidConfig(NoLanguageError))
    else match FirstUnsupported(a.languages)
      case Some(lang) => Err(InvalidConfig(UnsupportedLanguageError(lang)))
      case None =>
        if a.memoryThresholdMb < 100 then Err(InvalidConfig(MemoryError(a.memoryThresholdMb)))
        else checkDir(a.outputDir, a.memoryThresholdMb)
  }

  /** The first unsupported code's message is the first message the
      configuration collects for the codes. */
  lemma {:induction false} FirstUnsupportedLeads(langs: seq<string>)
    ensures FirstUnsupported(langs).None? <==> UnsupportedErrors(langs) == []
    ensures FirstUnsupported(langs).Some? ==>
      UnsupportedErrors(langs) != [] && UnsupportedErrors(langs)[0] == UnsupportedLanguageError(FirstUnsupported(langs).value)
  {
    UnsupportedErrorsEmptyIff(langs);
    if langs != [] {
      FirstUnsupportedLeads(langs[1..]);
      UnsupportedErrorsAppend([langs[0]], langs[1..]);
      assert [langs[0]] + langs[1..] == langs;
      assert [langs[0]][..0] == [];
    }
  }

  /** The arguments pass exactly when their configuration is valid and the
      directory check passes; a failure of the earlier checks is the first
      message the configuration's own validation collects. */
  lemma ValidateAgreesWithConfig(a: CliArgs, f: Formats, checkDir: (string, nat) -> Result<()>)
    ensures Validate(a, f, checkDir).Ok? <==> Valid(AsConfig(a)) && checkDir(a.outputDir, a.memoryThresholdMb).Ok?
    ensures !Valid(AsConfig(a)) ==>
      ConfigErrors(AsConfig(a), f) != [] && Validate(a, f, checkDir) == Err(InvalidConfig(ConfigErrors(AsConfig(a), f)[0]))
    ensures Valid(AsConfig(a)) ==> Validate(a, f, checkDir) == checkDir(a.outputDir, a.memoryThresholdMb)
  {
    var c := AsConfig(a);
    ValidationIff(c, f);
    FirstUnsupportedLeads(a.languages);
  }

  /** The directory is consulted only once every other check has passed. */
  lemma DirectoryCheckedLast(a: CliArgs, f: Formats, check1: (string, nat) -> Result<()>, check2: (string, nat) -> Result<()>)
    requires !Valid(AsConfig(a))
    ensures Validate(a, f, check1) == Validate(a, f, check2)
  {
    ValidateAgreesWithConfig(a, f, check1);
    ValidateAgreesWithConfig(a, f, check2);
  }

  /** `to_config`: the arguments' fields unchanged, after both validations. */
  function ToConfig(a: CliArgs, f: Formats, checkDir: (string, nat) -> Result<()>): (r: Result<ExtractionConfig>)
    ensures r.Ok? <==> Validate(a, f, checkDir).Ok?
    ensures r.Ok? ==> r.value == AsConfig(a)
    ensures r.Err? ==> r.error == Validate(a, f, checkDir).error
  {
    ValidateAgreesWithConfig(a, f, checkDir);
    match Validate(a, f, checkDir)
    case Err(e) => Err(e)
    case Ok(_) => Validated(AsConfig(a), f)
  }

  /** The default arguments pass exactly when "." offers 500 MB. */
  lemma DefaultArgsValid(f: Formats, checkDir: (string, nat) -> Result<()>)
    ensures Validate(DefaultArgs(), f, checkDir) == checkDir(".", 500)
  {
    assert Supported("eng");
    ValidateAgreesWithConfig(DefaultArgs(), f, checkDir);
  }

  /** The conversion's own example: all seven fields carried over. */
  lemma ToConfigExample(url: string, dir: string, f: Formats, checkDir: (string, nat) -> Result<()>)
    requires checkDir(dir, 600) == Ok(())
    ensures ToConfig(CliArgs(url, 10.0, 0.9, dir, ["eng"], true, 600), f, checkDir)
            == Ok(ExtractionConfig(url, 10.0, 0.9, dir, ["eng"], true, 600))
  {
    assert Supported("eng");
  }
}
