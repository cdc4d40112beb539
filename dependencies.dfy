// The external tools the pipeline needs (yt-dlp, FFmpeg, Tesseract): their
// names and minimum versions, the parsing of their version output, dotted
// version comparison, and the aggregation of the per-tool checks. Running a
// tool is the caller's part: `run(command, flag)` says whether the process
// could be started, whether it exited successfully and what it printed.

module Dependencies {
  import opened Strings
  import opened Errors

  datatype Dependency = YtDlp | FFmpeg | Tesseract

  function CommandName(d: Dependency): string
  {
    match d
    case YtDlp => "yt-dlp"
    case FFmpeg => "ffmpeg"
    case Tesseract => "tesseract"
  }

  /** Also the tool's `Display`. */
  function DisplayName(d: Dependency): string
  {
    match d
    case YtDlp => "yt-dlp"
    case FFmpeg => "FFmpeg"
    case Tesseract => "Tesseract OCR"
  }

  function MinimumVersion(d: Dependency): Option<string>
  {
    match d
    case YtDlp => Some("2023.01.01")
    case FFmpeg => Some("4.0")
    case Tesseract => Some("4.0")
  }

  function InstallationInstructions(d: Dependency): string
  {
    match d
    case YtDlp =>
      "Install yt-dlp using pip: pip install yt-dlp\nOr download from: https://github.com/yt-dlp/yt-dlp/releases"
    case FFmpeg =>
      "Install FFmpeg using your package manager:\n- macOS: brew install ffmpeg\n- Ubuntu/Debian: sudo apt install ffmpeg\n"
      + "- Windows: Download from https://ffmpeg.org/download.html"
    case Tesseract =>
      "Install Tesseract OCR using your package manager:\n- macOS: brew install tesseract\n"
      + "- Ubuntu/Debian: sudo apt install tesseract-ocr\n- Windows: Download from https://github.com/UB-Mannheim/tesseract/wiki"
  }

  // ---------------------------------------------------------------------
  // Version numbers

  const U32Bound: nat := 0x1_0000_0000

  /** Length of the leading run of ASCII digits. */
  function DigitRunLength(s: string): (n: nat)
    ensures n <= |s| && AllDigits(s[..n]) && (n < |s| ==> !IsDigit(s[n]))
  {
    if s == [] || !IsDigit(s[0]) then 0
    else
      var n := 1 + DigitRunLength(s[1..]);
      assert forall i :: 0 < i < n ==> s[..n][i] == s[1..][..n - 1][i - 1];
      n
  }

  /** `s.split(|c| !c.is_ascii_digit())`: the pieces between non-digits,
      empty ones included. */
  function DigitPieces(s: string): (r: seq<string>)
    ensures |r| >= 1 && forall k :: 0 <= k < |r| ==> AllDigits(r[k])
    decreases |s|
  {
    var n := DigitRunLength(s);
    if n == |s| then [s] else [s[..n]] + DigitPieces(s[n + 1..])
  }

  /** `filter_map(|s| s.parse::<u32>().ok())`: the pieces that are u32
      numbers, in order; empty and overflowing pieces are dropped. */
  function NumbersOf(pieces: seq<string>): (r: seq<nat>)
    ensures forall k :: 0 <= k < |r| ==> r[k] < U32Bound
  {
    if pieces == [] then []
    else
      (match ParseUnsigned(pieces[0], U32Bound) case Some(v) => [v] case None => []) + NumbersOf(pieces[1..])
  }

  function VersionParts(v: string): seq<nat>
  {
    NumbersOf(DigitPieces(v))
  }

  /** A component, zero past the end. */
  function At(p: seq<nat>, i: nat): nat
  {
    if i < |p| then p[i] else 0
  }

  function Max(a: nat, b: nat): nat { if a < b then b else a }

  /** Comparison of positions i up to n: the difference at the first
      position where the components differ, else 0. */
  function CompareFrom(p: seq<nat>, q: seq<nat>, i: nat, n: nat): (r: int)
    decreases n - i
    ensures r == 0 <==> forall j :: i <= j < n ==> At(p, j) == At(q, j)
    ensures r != 0 ==> exists j :: i <= j < n && At(p, j) != At(q, j) && r == At(p, j) - At(q, j) &&
                                   forall k :: i <= k < j ==> At(p, k) == At(q, k)
  {
    if i >= n then 0
    else if At(p, i) != At(q, i) then At(p, i) - At(q, i)
    else CompareFrom(p, q, i + 1, n)
  }

  /** Corrected `compare_versions` on the parsed components: zero-padded to
      the longer length and compared position by position, the difference
      computed without wrap-around. */
  function CompareParts(p: seq<nat>, q: seq<nat>): int
  {
    CompareFrom(p, q, 0, Max(|p|, |q|))
  }

  /** `compare_versions`, with the difference taken over the integers. */
  method CompareVersions(v1: string, v2: string) returns (r: int)
    ensures r == CompareParts(VersionParts(v1), VersionParts(v2))
  {
    var p1 := VersionParts(v1);
    var p2 := VersionParts(v2);
    var maxLen := Max(|p1|, |p2|);
    for i := 0 to maxLen
      invariant CompareFrom(p1, p2, 0, maxLen) == CompareFrom(p1, p2, i, maxLen)
    {
      var a: int := if i < |p1| then p1[i] else 0;
      var b: int := if i < |p2| then p2[i] else 0;
      if a != b {
        return a - b;
      }
    }
    return 0;
  }

  /** Past both lengths every position compares equal. */
  lemma BoundIrrelevant(p: seq<nat>, q: seq<nat>, n: nat)
    requires n >= Max(|p|, |q|)
    ensures CompareFrom(p, q, 0, n) == CompareParts(p, q)
  {
    var m := Max(|p|, |q|);
    var r := CompareFrom(p, q, 0, n);
    var s := CompareParts(p, q);
    if r == 0 {
      assert forall j :: 0 <= j < m ==> At(p, j) == At(q, j);
    } else {
      var j :| 0 <= j < n && At(p, j) != At(q, j) && r == At(p, j) - At(q, j) &&
               forall k :: 0 <= k < j ==> At(p, k) == At(q, k);
      assert j < m;
      assert s != 0;
      var j' :| 0 <= j' < m && At(p, j') != At(q, j') && s == At(p, j') - At(q, j') &&
                forall k :: 0 <= k < j' ==> At(p, k) == At(q, k);
      assert j == j';
    }
  }

  /** A version equals itself. */
  lemma CompareSelf(p: seq<nat>)
    ensures CompareParts(p, p) == 0
  {
  }

  /** Swapping the operands negates the result. */
  lemma CompareAntisymmetric(p: seq<nat>, q: seq<nat>)
    ensures CompareParts(p, q) == -CompareParts(q, p)
  {
    var n := Max(|p|, |q|);
    assert Max(|q|, |p|) == n;
    var r := CompareParts(p, q);
    var s := CompareParts(q, p);
    if r != 0 {
      var j :| 0 <= j < n && At(p, j) != At(q, j) && r == At(p, j) - At(q, j) &&
               forall k :: 0 <= k < j ==> At(p, k) == At(q, k);
      var j' :| 0 <= j' < n && At(q, j') != At(p, j') && s == At(q, j') - At(p, j') &&
                forall k :: 0 <= k < j' ==> At(q, k) == At(p, k);
      assert j == j';
    }
  }

  /** Versions that agree position by position compare equal to everything
      alike: trailing zero components do not matter. */
  lemma PaddingIrrelevant(p: seq<nat>, p': seq<nat>, q: seq<nat>)
    requires forall j :: At(p, j) == At(p', j)
    ensures CompareParts(p, q) == CompareParts(p', q)
  {
    var n := Max(Max(|p|, |p'|), |q|);
    BoundIrrelevant(p, q, n);
    BoundIrrelevant(p', q, n);
    SameComponentsSameResult(p, p', q, 0, n);
  }

  lemma SameComponentsSameResult(p: seq<nat>, p': seq<nat>, q: seq<nat>, i: nat, n: nat)
    requires forall j :: At(p, j) == At(p', j)
    ensures CompareFrom(p, q, i, n) == CompareFrom(p', q, i, n)
    decreases n - i
  {
    if i < n && At(p, i) == At(q, i) {
      SameComponentsSameResult(p, p', q, i + 1, n);
    }
  }

  /** A trailing zero component changes nothing. */
  lemma TrailingZero(p: seq<nat>, q: seq<nat>)
    ensures CompareParts(p + [0], q) == CompareParts(p, q)
  {
    assert forall j :: At(p + [0], j) == At(p, j);
    PaddingIrrelevant(p + [0], p, q);
  }

  /** "At least" is transitive: a version at least as new as one that meets
      a minimum meets it too. */
  lemma CompareTransitive(a: seq<nat>, b: seq<nat>, c: seq<nat>)
    requires CompareParts(a, b) >= 0 && CompareParts(b, c) >= 0
    ensures CompareParts(a, c) >= 0
  {
    var n := Max(Max(|a|, |b|), |c|);
    BoundIrrelevant(a, b, n);
    BoundIrrelevant(b, c, n);
    BoundIrrelevant(a, c, n);
    TransitiveFrom(a, b, c, 0, n);
  }

  lemma TransitiveFrom(a: seq<nat>, b: seq<nat>, c: seq<nat>, i: nat, n: nat)
    requires CompareFrom(a, b, i, n) >= 0 && CompareFrom(b, c, i, n) >= 0
    ensures CompareFrom(a, c, i, n) >= 0
    decreases n - i
  {
    if i < n && At(a, i) == At(b, i) && At(b, i) == At(c, i) {
      TransitiveFrom(a, b, c, i + 1, n);
    }
  }

  // ---------------------------------------------------------------------
  // The i32 arithmetic of the program

  const I32Bound: int := 0x8000_0000

  /** `x as i32` for a u32. */
  function AsI32(x: nat): int
    requires x < U32Bound
  {
    if x < I32Bound then x else x - U32Bound
  }

  /** Wrapping i32 subtraction. */
  function WrappingSubI32(a: int, b: int): (r: int)
    ensures -I32Bound <= r < I32Bound
  {
    (a - b + I32Bound) % U32Bound - I32Bound
  }

  /** `compare_versions` as written: the u32 components are cast to i32
      before subtracting. */
  function CompareFromAsWritten(p: seq<nat>, q: seq<nat>, i: nat, n: nat): int
    requires forall k :: 0 <= k < |p| ==> p[k] < U32Bound
    requires forall k :: 0 <= k < |q| ==> q[k] < U32Bound
    decreases n - i
  {
    if i >= n then 0
    else if At(p, i) != At(q, i) then WrappingSubI32(AsI32(At(p, i)), AsI32(At(q, i)))
    else CompareFromAsWritten(p, q, i + 1, n)
  }

  /** Below 2^31 the casts change nothing and both comparisons agree. */
  lemma AsWrittenAgreesBelow(p: seq<nat>, q: seq<nat>, i: nat, n: nat)
    requires forall k :: 0 <= k < |p| ==> p[k] < I32Bound
    requires forall k :: 0 <= k < |q| ==> q[k] < I32Bound
    ensures CompareFromAsWritten(p, q, i, n) == CompareFrom(p, q, i, n)
    decreases n - i
  {
    if i < n && At(p, i) == At(q, i) {
      AsWrittenAgreesBelow(p, q, i + 1, n);
    }
  }

  /** A component of 3000000000 wraps to a negative i32: as written, version
      "3000000000" compares below version "1". */
  lemma WrapCounterexample()
    ensures CompareFromAsWritten([3000000000], [1], 0, 1) < 0
    ensures CompareParts([3000000000], [1]) > 0
  {
  }

  /** `check_version_requirement`, over the corrected comparison. */
  predicate MeetsRequirement(d: Dependency, version: string)
  {
    match MinimumVersion(d)
    case Some(m) => CompareParts(VersionParts(version), VersionParts(m)) >= 0
    case None => true
  }

  /** A version at least as new as one that meets the requirement meets it. */
  lemma RequirementMonotone(d: Dependency, v: string, w: string)
    requires MeetsRequirement(d, v) && CompareParts(VersionParts(w), VersionParts(v)) >= 0
    ensures MeetsRequirement(d, w)
  {
    CompareTransitive(VersionParts(w), VersionParts(v), VersionParts(MinimumVersion(d).value));
  }

  // ---------------------------------------------------------------------
  // Version output

  datatype Probe = Version(text: string) | NoVersion(reason: string)

  const NoVersionOutput: string := "No version output found"

  /** yt-dlp and Tesseract: the second word of the first line, else the
      whole first line. */
  function FirstLineVersion(stdout: string): (r: Probe)
    ensures r.NoVersion? <==> Lines(stdout) == []
    ensures r.NoVersion? ==> r.reason == NoVersionOutput
  {
    var lines := Lines(stdout);
    if lines == [] then NoVersion(NoVersionOutput)
    else
      var words := Words(lines[0]);
      if |words| >= 2 then Version(words[1]) else Version(lines[0])
  }

  /** FFmpeg, for one line: the first word after the first "version ", if
      the line has one. */
  function FfmpegCandidate(line: string): Option<string>
  {
    if !Contains(line, "version") || !Contains(line, "version ") then None
    else
      var words := Words(SecondPiece(line, "version "));
      if words == [] then None else Some(words[0])
  }

  /** FFmpeg: the candidate of the first line that has one. */
  function FfmpegVersion(lines: seq<string>): (r: Probe)
    ensures r.Version? <==> exists k :: 0 <= k < |lines| && FfmpegCandidate(lines[k]).Some?
    ensures r.Version? ==> exists k :: 0 <= k < |lines| && FfmpegCandidate(lines[k]) == Some(r.text) &&
                                       forall j :: 0 <= j < k ==> FfmpegCandidate(lines[j]).None?
    ensures r.NoVersion? ==> r.reason == NoVersionOutput
  {
    if lines == [] then NoVersion(NoVersionOutput)
    else match FfmpegCandidate(lines[0])
      case Some(v) => Version(v)
      case None =>
        var r := FfmpegVersion(lines[1..]);
        assert forall k :: 0 <= k < |lines[1..]| ==> lines[1..][k] == lines[k + 1];
        r
  }

  /** The FFmpeg branch of `parse_version`: the loop over the lines that
      returns at the first version found. */
  method ParseFfmpegVersion(stdout: string) returns (r: Probe)
    ensures r == FfmpegVersion(Lines(stdout))
  {
    var lines := Lines(stdout);
    for i := 0 to |lines|
      invariant FfmpegVersion(lines) == FfmpegVersion(lines[i..])
    {
      assert lines[i..][1..] == lines[i + 1..];
      if Contains(lines[i], "version") {
        var found := Find(lines[i], "version ");
        if found.Some? {
          var words := Words(SecondPiece(lines[i], "version "));
          if words != [] {
            return Version(words[0]);
          }
        }
      }
    }
    return NoVersion(NoVersionOutput);
  }

  /** `parse_version`. */
  function ParseVersion(d: Dependency, stdout: string): Probe
  {
    match d
    case FFmpeg => FfmpegVersion(Lines(stdout))
    case _ => FirstLineVersion(stdout)
  }

  /** What running a tool gave: whether it started, and if so whether it
      exited successfully and what it printed. */
  datatype RunOutput = Ran(success: bool, stdout: string) | NotRun(reason: string)

  /** `get_version`: FFmpeg is asked with "-version" first, the others with
      "--version"; on an unsuccessful exit the other flag is tried once. */
  function GetVersion(d: Dependency, command: string, run: (string, string) -> RunOutput): (r: Probe)
    ensures run(command, if d == FFmpeg then "-version" else "--version").Ran? &&
            run(command, if d == FFmpeg then "-version" else "--version").success ==>
            r == ParseVersion(d, run(command, if d == FFmpeg then "-version" else "--version").stdout)
  {
    var primary := if d == FFmpeg then "-version" else "--version";
    var secondary := if d == FFmpeg then "--version" else "-version";
    match run(command, primary)
    case NotRun(e) => NoVersion("Failed to execute " + command + ": " + e)
    case Ran(ok, out) =>
      if ok then ParseVersion(d, out)
      else match run(command, secondary)
        case NotRun(e) => NoVersion("Failed to execute " + command + ": " + e)
        case Ran(ok2, out2) =>
          if !ok2 then NoVersion(command + " returned non-zero exit code") else ParseVersion(d, out2)
  }

  /** `command_exists`: the tool starts with one of the two flags. */
  predicate CommandExists(command: string, run: (string, string) -> RunOutput)
  {
    run(command, "--version").Ran? || run(command, "-version").Ran?
  }

  // ---------------------------------------------------------------------
  // Checking the tools

  datatype DependencyCheckResult = DependencyCheckResult(
    dependency: Dependency,
    available: bool,
    version: Option<string>,
    versionOk: bool,
    path: Option<string>,
    error: Option<string>)

  /** `is_ok`. */
  predicate IsOk(r: DependencyCheckResult)
  {
    r.available && r.versionOk
  }

  function OrUnknown(o: Option<string>): string
  {
    if o.Some? then o.value else "unknown"
  }

  /** `status_message`: missing, then too old, then fine. */
  function StatusMessage(r: DependencyCheckResult): string
  {
    Message(DisplayName(r.dependency), InstallationInstructions(r.dependency), OrUnknown(r.version),
            OrUnknown(MinimumVersion(r.dependency)), r.available, r.versionOk)
  }

  /** The three message shapes, given the tool's name, its installation help,
      the version found and the version required. */
  function Message(name: string, help: string, found: string, required: string, available: bool, versionOk: bool): string
  {
    if !available then (name + " is not installed or not found in PATH. ") + help
    else if !versionOk then
      (name + " version " + found + " is installed, but version ") + required + (" or higher is required. " + help)
    else (name + " is available (version ") + found + ")."
  }

  /** Every message starts with the tool's name; a missing tool is reported
      as such; a tool that is too old is reported with the version found and
      the version required; a failed check ends with the installation help,
      and a passed one with the version found, in brackets. */
  lemma StatusMessageBranches(r: DependencyCheckResult)
    ensures StartsWith(StatusMessage(r), DisplayName(r.dependency))
    ensures !IsOk(r) ==> EndsWith(StatusMessage(r), InstallationInstructions(r.dependency))
    ensures !r.available ==> StartsWith(StatusMessage(r), DisplayName(r.dependency) + " is not installed or not found in PATH. ")
    ensures r.available && !r.versionOk ==>
      Contains(StatusMessage(r), OrUnknown(r.version)) && Contains(StatusMessage(r), OrUnknown(MinimumVersion(r.dependency)))
    ensures IsOk(r) ==> Contains(StatusMessage(r), OrUnknown(r.version)) && EndsWith(StatusMessage(r), ").")
  {
    MessageShapes(DisplayName(r.dependency), InstallationInstructions(r.dependency), OrUnknown(r.version),
                  OrUnknown(MinimumVersion(r.dependency)), r.available, r.versionOk);
  }

  lemma MessageShapes(name: string, help: string, found: string, required: string, available: bool, versionOk: bool)
    ensures StartsWith(Message(name, help, found, required, available, versionOk), name)
    ensures !(available && versionOk) ==> EndsWith(Message(name, help, found, required, available, versionOk), help)
    ensures !available ==> StartsWith(Message(name, help, found, required, available, versionOk), name + " is not installed or not found in PATH. ")
    ensures available && !versionOk ==>
      Contains(Message(name, help, found, required, available, versionOk), found) &&
      Contains(Message(name, help, found, required, available, versionOk), required)
    ensures available && versionOk ==>
      Contains(Message(name, help, found, required, available, versionOk), found) &&
      EndsWith(Message(name, help, found, required, available, versionOk), ").")
  {
    if !available {
      Framed(name + " is not installed or not found in PATH. ", help);
      PrefixOfPrefix(name, " is not installed or not found in PATH. ", help);
    } else if !versionOk {
      TooOldShape(name, help, found, required);
    } else {
      AvailableShape(name, found);
    }
  }

  lemma TooOldShape(name: string, help: string, found: string, required: string)
    ensures var m := (name + " version " + found + " is installed, but version ") + required + (" or higher is required. " + help);
      StartsWith(m, name) && EndsWith(m, help) && Contains(m, found) && Contains(m, required)
  {
    var lead := name + " version ";
    var pre := lead + found + " is installed, but version ";
    var post := " or higher is required. " + help;
    var m := pre + required + post;
    Surrounded(pre, required, post);
    Surrounded(lead, found, " is installed, but version ");
    Framed(name, " version ");
    Framed(" or higher is required. ", help);
    StartsWithTrans(m, pre, lead);
    StartsWithTrans(m, lead, name);
    EndsWithTrans(m, post, help);
    ContainsInPrefix(m, pre, found);
  }

  /** A concatenation of three starts with the first, contains the second
      and ends with the third. */
  lemma Surrounded(a: string, x: string, b: string)
    ensures StartsWith(a + x + b, a) && Contains(a + x + b, x) && EndsWith(a + x + b, b)
  {
    var m := a + x + b;
    assert m[..|a|] == a;
    assert m[|m| - |b|..] == b;
    ContainsMiddle(a, x, b);
  }

  lemma StartsWithTrans(m: string, p: string, q: string)
    requires StartsWith(m, p) && StartsWith(p, q)
    ensures StartsWith(m, q)
  {
    assert m[..|q|] == p[..|q|];
  }

  lemma EndsWithTrans(m: string, p: string, q: string)
    requires EndsWith(m, p) && EndsWith(p, q)
    ensures EndsWith(m, q)
  {
    assert m[|m| - |q|..] == p[|p| - |q|..];
  }

  lemma ContainsInPrefix(m: string, p: string, needle: string)
    requires StartsWith(m, p) && Contains(p, needle)
    ensures Contains(m, needle)
  {
    var i :| 0 <= i <= |p| && OccursAt(p, needle, i);
    assert m[i..i + |needle|] == p[i..i + |needle|];
    assert OccursAt(m, needle, i);
  }

  lemma AvailableShape(name: string, found: string)
    ensures var m := (name + " is available (version ") + found + ").";
      StartsWith(m, name) && EndsWith(m, ").") && Contains(m, found)
  {
    var pre := name + " is available (version ";
    ContainsMiddle(pre, found, ").");
    Framed(pre + found, ").");
    PrefixOfPrefix(name, " is available (version " + found, ").");
    assert name + (" is available (version " + found) == pre + found;
  }

  /** A concatenation starts with its first part and ends with its second. */
  lemma Framed(a: string, b: string)
    ensures StartsWith(a + b, a) && EndsWith(a + b, b)
  {
    assert (a + b)[..|a|] == a;
    assert (a + b)[|a + b| - |b|..] == b;
  }

  /** A concatenation starts with every prefix of its first part. */
  lemma PrefixOfPrefix(a: string, b: string, c: string)
    ensures StartsWith(a + b + c, a) && StartsWith(a + b + c, a + b)
  {
    assert (a + b + c)[..|a|] == a;
    assert (a + b + c)[..|a + b|] == a + b;
  }

  /** A concatenation ends with every suffix of its second part. */
  lemma SuffixOfSuffix(a: string, b: string, c: string)
    ensures EndsWith(a + (b + c), c)
  {
    var m := a + (b + c);
    assert m[|m| - |c|..] == c;
  }

  /** What a prefix contains, the whole string contains. */
  lemma ContainsWithin(a: string, needle: string, b: string)
    requires Contains(a, needle)
    ensures Contains(a + b, needle)
  {
    var i :| 0 <= i <= |a| && OccursAt(a, needle, i);
    assert (a + b)[i..i + |needle|] == a[i..i + |needle|];
    assert OccursAt(a + b, needle, i);
  }

  /** The checker's table of commands to run instead of the tools' own names. */
  datatype DependencyChecker = DependencyChecker(customPaths: map<Dependency, string>)

  const NewChecker: DependencyChecker := DependencyChecker(map[])

  /** `with_custom_path`. */
  function WithCustomPath(c: DependencyChecker, d: Dependency, path: string): (r: DependencyChecker)
    ensures r.customPaths.Keys == c.customPaths.Keys + {d}
  {
    DependencyChecker(c.customPaths[d := path])
  }

  /** `get_command_path`: the custom path if one was given, else the
      command name. */
  function CommandPath(c: DependencyChecker, d: Dependency): (r: string)
    ensures d in c.customPaths ==> r == c.customPaths[d]
    ensures d !in c.customPaths ==> r == CommandName(d)
  {
    if d in c.customPaths then c.customPaths[d] else CommandName(d)
  }

  /** A custom path is used for its tool and for no other. */
  lemma CustomPathOverrides(c: DependencyChecker, d: Dependency, path: string, e: Dependency)
    ensures CommandPath(WithCustomPath(c, d, path), d) == path
    ensures e != d ==> CommandPath(WithCustomPath(c, d, path), e) == CommandPath(c, e)
  {
  }

  /** `check`: a version found makes the tool available, its requirement
      decides `versionOk`; otherwise the tool is available only if it starts
      at all, and its version is never acceptable. */
  function Check(c: DependencyChecker, d: Dependency, run: (string, string) -> RunOutput): (r: DependencyCheckResult)
    ensures r.dependency == d
    ensures r.available <==> GetVersion(d, CommandPath(c, d), run).Version? || CommandExists(CommandPath(c, d), run)
    ensures IsOk(r) <==> GetVersion(d, CommandPath(c, d), run).Version? &&
                         MeetsRequirement(d, GetVersion(d, CommandPath(c, d), run).text)
    ensures r.path.Some? <==> r.available
    ensures r.path.Some? ==> r.path.value == CommandPath(c, d)
  {
    var command := CommandPath(c, d);
    match GetVersion(d, command, run)
    case Version(v) => DependencyCheckResult(d, true, Some(v), MeetsRequirement(d, v), Some(command), None)
    case NoVersion(e) =>
      var starts := CommandExists(command, run);
      DependencyCheckResult(d, starts, None, false, if starts then Some(command) else None, Some(e))
  }

  function CheckAll(c: DependencyChecker, run: (string, string) -> RunOutput): seq<DependencyCheckResult>
  {
    [Check(c, YtDlp, run), Check(c, FFmpeg, run), Check(c, Tesseract, run)]
  }

  /** The status messages of the failing checks, in order. */
  function FailureMessages(results: seq<DependencyCheckResult>): (r: seq<string>)
    ensures r == [] <==> forall k :: 0 <= k < |results| ==> IsOk(results[k])
  {
    if results == [] then []
    else
      var rest := FailureMessages(results[1..]);
      assert forall k :: 0 <= k < |results[1..]| ==> results[1..][k] == results[k + 1];
      (if IsOk(results[0]) then [] else [StatusMessage(results[0])]) + rest
  }

  /** Every failing check's message is among the failure messages. */
  lemma {:induction false} FailureMessagesInclude(results: seq<DependencyCheckResult>, k: nat)
    requires k < |results| && !IsOk(results[k])
    ensures StatusMessage(results[k]) in FailureMessages(results)
  {
    var m := StatusMessage(results[k]);
    if k > 0 {
      var rest := FailureMessages(results[1..]);
      assert results[1..][k - 1] == results[k];
      FailureMessagesInclude(results[1..], k - 1);
      assert m in rest;
      assert FailureMessages(results) == (if IsOk(results[0]) then [] else [StatusMessage(results[0])]) + rest;
    } else {
      assert FailureMessages(results) == [m] + FailureMessages(results[1..]);
    }
  }

  /** `validate_all` on the results of the checks. */
  function ValidateResults(results: seq<DependencyCheckResult>): (r: Result<()>)
    ensures r.Ok? <==> forall k :: 0 <= k < |results| ==> IsOk(results[k])
    ensures r.Err? ==> r.error.ExternalDependencyUnavailable?
  {
    var messages := FailureMessages(results);
    if messages == [] then Ok(()) else Err(ExternalDependencyUnavailable(Join(messages, "\n\n")))
  }

  /** A failure names every failing tool's status message, joined by blank
      lines. */
  lemma ValidateReportsEach(results: seq<DependencyCheckResult>, k: nat)
    requires k < |results| && !IsOk(results[k])
    ensures ValidateResults(results).Err?
    ensures Contains(ValidateResults(results).error.dep, StatusMessage(results[k]))
  {
    FailureMessagesInclude(results, k);
    var messages := FailureMessages(results);
    var i :| 0 <= i < |messages| && messages[i] == StatusMessage(results[k]);
    JoinContainsPart(messages, "\n\n", i);
  }

  /** `validate_all`: the three tools, in order. */
  function ValidateAll(c: DependencyChecker, run: (string, string) -> RunOutput): Result<()>
  {
    ValidateResults(CheckAll(c, run))
  }

  /** All three tools must pass. */
  lemma ValidateAllIff(c: DependencyChecker, run: (string, string) -> RunOutput)
    ensures ValidateAll(c, run).Ok? <==>
      IsOk(Check(c, YtDlp, run)) && IsOk(Check(c, FFmpeg, run)) && IsOk(Check(c, Tesseract, run))
  {
    ValidateThree(Check(c, YtDlp, run), Check(c, FFmpeg, run), Check(c, Tesseract, run));
  }

  lemma ValidateThree(a: DependencyCheckResult, b: DependencyCheckResult, d: DependencyCheckResult)
    ensures ValidateResults([a, b, d]).Ok? <==> IsOk(a) && IsOk(b) && IsOk(d)
  {
    var results := [a, b, d];
    assert results[0] == a && results[1] == b && results[2] == d;
  }
}
