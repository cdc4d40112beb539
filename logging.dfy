// Log-level parsing and display, the logging configuration with its
// defaults and setters, and the per-session logging context.

module Logging {
  import opened Strings
  import Errors

  datatype LogLevel = Error | Warn | Info | Debug | Trace

  datatype ParseResult = Parsed(level: LogLevel) | Invalid(message: string)

  /** Display: the lower-case level name. */
  function LevelName(l: LogLevel): (r: string)
    ensures r != [] && Lower(r) == r
  {
    match l
    case Error => "error"
    case Warn => "warn"
    case Info => "info"
    case Debug => "debug"
    case Trace => "trace"
  }

  /** FromStr: case-insensitive match on the five names. */
  function ParseLevel(s: string): (r: ParseResult)
    ensures r.Invalid? ==> r.message == "Invalid log level: " + s
  {
    var k := Lower(s);
    if k == "error" then Parsed(Error)
    else if k == "warn" then Parsed(Warn)
    else if k == "info" then Parsed(Info)
    else if k == "debug" then Parsed(Debug)
    else if k == "trace" then Parsed(Trace)
    else Invalid("Invalid log level: " + s)
  }

  /** Parsing the displayed name gives the level back. */
  lemma ParseDisplayRoundTrip(l: LogLevel)
    ensures ParseLevel(LevelName(l)) == Parsed(l)
  {
  }

  /** A string parses to a level exactly when its lower-case form is that
      level's name; so case does not matter and every other string is refused. */
  lemma ParseIff(s: string, l: LogLevel)
    ensures ParseLevel(s) == Parsed(l) <==> Lower(s) == LevelName(l)
  {
  }

  lemma LowerIdempotent(s: string)
    ensures Lower(Lower(s)) == Lower(s)
  {
    assert forall i :: 0 <= i < |s| ==> LowerChar(LowerChar(s[i])) == LowerChar(s[i]);
  }

  /** Case-insensitivity: a string and its lower-case form parse alike. */
  lemma {:induction false} ParseIgnoresCase(s: string)
    ensures ParseLevel(Lower(s)).Parsed? == ParseLevel(s).Parsed?
    ensures ParseLevel(s).Parsed? ==> ParseLevel(Lower(s)) == ParseLevel(s)
  {
    LowerIdempotent(s);
  }

  lemma LowerOf(s: string, t: string)
    requires |s| == |t|
    requires forall i :: 0 <= i < |s| ==> LowerChar(s[i]) == t[i]
    ensures Lower(s) == t
  {
  }

  /** The program's examples: "ERROR", "Error" and "INFO". */
  lemma ParseUpperCaseExamples()
    ensures ParseLevel("ERROR") == Parsed(Error)
    ensures ParseLevel("Error") == Parsed(Error)
    ensures ParseLevel("INFO") == Parsed(Info)
  {
    LowerOf("ERROR", "error");
    LowerOf("Error", "error");
    LowerOf("INFO", "info");
  }

  datatype LoggingConfig = LoggingConfig(
    consoleLevel: LogLevel,
    fileLevel: LogLevel,
    logDirectory: string,
    maxFileSizeMb: nat,
    maxFiles: nat,
    includeSystemInfo: bool)

  function DefaultLoggingConfig(): (c: LoggingConfig)
    ensures c.consoleLevel == Info && c.fileLevel == Debug && c.logDirectory == "./logs"
    ensures c.maxFileSizeMb == 10 && c.maxFiles == 5 && c.includeSystemInfo
  {
    LoggingConfig(Info, Debug, "./logs", 10, 5, true)
  }

  function WithConsoleLevel(c: LoggingConfig, l: LogLevel): (r: LoggingConfig)
    ensures r.consoleLevel == l && r == c.(consoleLevel := l)
  {
    c.(consoleLevel := l)
  }

  function WithFileLevel(c: LoggingConfig, l: LogLevel): (r: LoggingConfig)
    ensures r.fileLevel == l && r == c.(fileLevel := l)
  {
    c.(fileLevel := l)
  }

  function WithLogDirectory(c: LoggingConfig, dir: string): (r: LoggingConfig)
    ensures r.logDirectory == dir && r == c.(logDirectory := dir)
  {
    c.(logDirectory := dir)
  }

  function WithMaxFileSizeMb(c: LoggingConfig, mb: nat): (r: LoggingConfig)
    ensures r.maxFileSizeMb == mb && r == c.(maxFileSizeMb := mb)
  {
    c.(maxFileSizeMb := mb)
  }

  function WithMaxFiles(c: LoggingConfig, n: nat): (r: LoggingConfig)
    ensures r.maxFiles == n && r == c.(maxFiles := n)
  {
    c.(maxFiles := n)
  }

  function WithIncludeSystemInfo(c: LoggingConfig, b: bool): (r: LoggingConfig)
    ensures r.includeSystemInfo == b && r == c.(includeSystemInfo := b)
  {
    c.(includeSystemInfo := b)
  }

  /** Setters touch disjoint fields, so they commute. */
  lemma SettersCommute(c: LoggingConfig, l: LogLevel, mb: nat)
    ensures WithMaxFileSizeMb(WithConsoleLevel(c, l), mb) == WithConsoleLevel(WithMaxFileSizeMb(c, mb), l)
  {
  }

  datatype SessionContext = SessionContext(
    sessionId: Strings.Option<Errors.Id>,
    operation: Strings.Option<string>,
    moduleName: Strings.Option<string>)

  function NewSessionContext(): (c: SessionContext)
    ensures c.sessionId.None? && c.operation.None? && c.moduleName.None?
  {
    SessionContext(None, None, None)
  }

  function WithSessionId(c: SessionContext, id: Errors.Id): (r: SessionContext)
    ensures r.sessionId == Some(id) && r.operation == c.operation && r.moduleName == c.moduleName
  {
    c.(sessionId := Some(id))
  }

  function WithOperation(c: SessionContext, op: string): (r: SessionContext)
    ensures r.operation == Some(op) && r.sessionId == c.sessionId && r.moduleName == c.moduleName
  {
    c.(operation := Some(op))
  }

  function WithModule(c: SessionContext, m: string): (r: SessionContext)
    ensures r.moduleName == Some(m) && r.sessionId == c.sessionId && r.operation == c.operation
  {
    c.(moduleName := Some(m))
  }
}
