/// `LogImpl`: routes the native SDK's log messages to .NET tracing.
/// - A process-wide trace level selects the severity of the native log
///   callback.
/// - `ConfigureLogging` sets the console and file logging of the SDK.
module LogImpl {
  import opened Base
  import opened ObTypes
  import opened Native
  import opened ObException

  /// `System.Diagnostics.TraceLevel` codes.
  const TRACE_OFF: int := 0
  const TRACE_ERROR: int := 1
  const TRACE_WARNING: int := 2
  const TRACE_INFO: int := 3
  const TRACE_VERBOSE: int := 4

  /// `ToLogSeverity`: the native severity for a trace level. A value that
  /// is not a named trace level throws `ArgumentOutOfRangeException`.
  function ToLogSeverity(level: int): (r: Result<int>)
    ensures r.Throw? <==> !(TRACE_OFF <= level <= TRACE_VERBOSE)
    ensures r.Throw? ==> r.exc == ArgumentOutOfRange("level")
    ensures level == TRACE_OFF ==> r == Ok(SEVERITY_OFF)
    ensures level == TRACE_ERROR ==> r == Ok(SEVERITY_ERROR)
    ensures level == TRACE_WARNING ==> r == Ok(SEVERITY_WARN)
    ensures level == TRACE_INFO ==> r == Ok(SEVERITY_INFO)
    ensures level == TRACE_VERBOSE ==> r == Ok(SEVERITY_DEBUG)
  {
    if level == TRACE_OFF then Ok(SEVERITY_OFF)
    else if level == TRACE_ERROR then Ok(SEVERITY_ERROR)
    else if level == TRACE_WARNING then Ok(SEVERITY_WARN)
    else if level == TRACE_INFO then Ok(SEVERITY_INFO)
    else if level == TRACE_VERBOSE then Ok(SEVERITY_DEBUG)
    else Throw(ArgumentOutOfRange("level"))
  }

  /// Distinct trace levels get distinct severities, and `Fatal` is never
  /// chosen.
  lemma ToLogSeverityInjective(a: int, b: int)
    requires ToLogSeverity(a).Ok? && ToLogSeverity(b).Ok?
    ensures ToLogSeverity(a) == ToLogSeverity(b) ==> a == b
    ensures ToLogSeverity(a).value != SEVERITY_FATAL
  {
  }

  /// The .NET trace method a native log message goes to.
  datatype TraceOutput = TraceError | TraceWarning | TraceInformation | WriteLine

  /// `OnLogMessage`: Fatal and Error go to `TraceError`, Warn to
  /// `TraceWarning`, Info to `TraceInformation`, and every other severity
  /// (Debug, Off, unnamed codes) to `WriteLine`.
  function Route(severity: int): (out: TraceOutput)
    ensures out == TraceError <==> severity == SEVERITY_FATAL || severity == SEVERITY_ERROR
    ensures out == TraceWarning <==> severity == SEVERITY_WARN
    ensures out == TraceInformation <==> severity == SEVERITY_INFO
  {
    if severity == SEVERITY_FATAL || severity == SEVERITY_ERROR then TraceError
    else if severity == SEVERITY_WARN then TraceWarning
    else if severity == SEVERITY_INFO then TraceInformation
    else WriteLine
  }

  /// The severity `ConfigureLogging` gives the console logger: `Off` unless
  /// console logging is asked for.
  function ConsoleSeverity(level: int, logToConsole: bool): (r: Result<int>)
    ensures !logToConsole ==> r == Ok(SEVERITY_OFF)
    ensures logToConsole ==> r == ToLogSeverity(level)
  {
    if logToConsole then ToLogSeverity(level) else Ok(SEVERITY_OFF)
  }

  /// The severity `ConfigureLogging` gives the file logger: `Off` when the
  /// directory is null, empty or white space.
  function FileSeverity(level: int, logToDirectory: Option<string>): (r: Result<int>)
    ensures IsNullOrWhiteSpace(logToDirectory) ==> r == Ok(SEVERITY_OFF)
    ensures !IsNullOrWhiteSpace(logToDirectory) ==> r == ToLogSeverity(level)
  {
    if IsNullOrWhiteSpace(logToDirectory) then Ok(SEVERITY_OFF) else ToLogSeverity(level)
  }

  /// The directory `ConfigureLogging` hands to the SDK: null becomes the
  /// empty string.
  function DirectoryArgument(logToDirectory: Option<string>): (dir: string)
    ensures logToDirectory.None? ==> dir == ""
    ensures logToDirectory.Some? ==> dir == logToDirectory.value
  {
    if logToDirectory.Some? then logToDirectory.value else ""
  }

  /// The logger state of the process: the static `traceLevel` and
  /// `firstTime` fields, and how often the exit handlers were attached.
  class Logger {
    var traceLevel: int
    var firstTime: bool
    ghost var exitHandlersAttached: nat

    /// The exit handlers are attached exactly when `firstTime` was cleared.
    ghost predicate Valid()
      reads this
    {
      exitHandlersAttached == if firstTime then 0 else 1
    }

    /// The static initial state: level `Off`, nothing attached yet.
    constructor ()
      ensures Valid() && traceLevel == TRACE_OFF && firstTime
    {
      traceLevel := TRACE_OFF;
      firstTime := true;
      exitHandlersAttached := 0;
    }

    /// The `TraceLevel` setter.
    /// - Setting the current value does nothing.
    /// - Otherwise the native log callback is set to the mapped severity.
    ///   The level is stored only if that call succeeds.
    /// - The first successful change attaches the exit handlers. Later
    ///   changes do not.
    method SetTraceLevel(lib: NativeSdk, value: int, err: ErrorPtr) returns (r: Result<()>)
      requires Valid() && lib.Valid()
      modifies this, lib
      ensures Valid() && lib.Valid() && lib.state == old(lib.state)
      ensures value == old(traceLevel) ==>
        r == Ok(()) && lib.calls == old(lib.calls) && traceLevel == old(traceLevel) && firstTime == old(firstTime)
      ensures value != old(traceLevel) && ToLogSeverity(value).Throw? ==>
        r == Throw(ToLogSeverity(value).exc) && lib.calls == old(lib.calls)
        && traceLevel == old(traceLevel) && firstTime == old(firstTime)
      ensures value != old(traceLevel) && ToLogSeverity(value).Ok? ==>
        && lib.calls == old(lib.calls) + [NativeCall(Invoke("ob_set_logger_callback"), 0, [ToLogSeverity(value).value])]
                        + CheckErrorCalls(err, true)
        && r == (if Thrown(err).Some? then Throw(Thrown(err).value) else Ok(()))
        && traceLevel == (if Thrown(err).Some? then old(traceLevel) else value)
        && firstTime == (old(firstTime) && Thrown(err).Some?)
    {
      if value == traceLevel {
        return Ok(());
      }
      var severity := ToLogSeverity(value);
      if severity.Throw? {
        return Throw(severity.exc);
      }
      lib.Call(Invoke("ob_set_logger_callback"), 0, [severity.value]);
      r := Check(lib, err);
      if r.Throw? {
        return;
      }
      traceLevel := value;
      if firstTime {
        exitHandlersAttached := exitHandlersAttached + 1;
        firstTime := false;
      }
    }

    /// `CurrentDomain_Exit`: turns the native log callback off. The stored
    /// level is left as it is.
    method OnExit(lib: NativeSdk, err: ErrorPtr) returns (r: Result<()>)
      requires lib.Valid()
      modifies lib
      ensures lib.Valid() && lib.state == old(lib.state)
      ensures lib.calls == old(lib.calls) + [NativeCall(Invoke("ob_set_logger_callback"), 0, [SEVERITY_OFF])]
                           + CheckErrorCalls(err, true)
      ensures r == if Thrown(err).Some? then Throw(Thrown(err).value) else Ok(())
    {
      lib.Call(Invoke("ob_set_logger_callback"), 0, [SEVERITY_OFF]);
      r := Check(lib, err);
    }
  }

  /// `ConfigureLogging(level, logToConsole, logToDirectory)`.
  /// - It sets the console logger, then the file logger.
  /// - Each severity is computed just before its call. An unnamed level
  ///   throws only when a logger actually needs it.
  method ConfigureLogging(lib: NativeSdk, level: int, logToConsole: bool, logToDirectory: Option<string>,
                          consoleErr: ErrorPtr, fileErr: ErrorPtr)
    returns (r: Result<()>)
    requires lib.Valid()
    modifies lib
    ensures lib.Valid() && lib.state == old(lib.state)
    ensures ConsoleSeverity(level, logToConsole).Throw? ==>
      r == Throw(ArgumentOutOfRange("level")) && lib.calls == old(lib.calls)
    ensures ConsoleSeverity(level, logToConsole).Ok? ==>
      && |lib.calls| > |old(lib.calls)|
      && lib.calls[|old(lib.calls)|] == NativeCall(Invoke("ob_set_logger_to_console"), 0, [ConsoleSeverity(level, logToConsole).value])
    ensures ConsoleSeverity(level, logToConsole).Ok? && Thrown(consoleErr).Some? ==>
      r == Throw(Thrown(consoleErr).value) && lib.calls == old(lib.calls)
        + [NativeCall(Invoke("ob_set_logger_to_console"), 0, [ConsoleSeverity(level, logToConsole).value])]
        + CheckErrorCalls(consoleErr, true)
    ensures ConsoleSeverity(level, logToConsole).Ok? && Thrown(consoleErr).None? && FileSeverity(level, logToDirectory).Ok? ==>
      && lib.calls == old(lib.calls)
        + [NativeCall(Invoke("ob_set_logger_to_console"), 0, [ConsoleSeverity(level, logToConsole).value])]
        + CheckErrorCalls(consoleErr, true)
        + [NativeCall(Invoke("ob_set_logger_to_file"), 0, [FileSeverity(level, logToDirectory).value] + Chars(DirectoryArgument(logToDirectory)))]
        + CheckErrorCalls(fileErr, true)
      && r == (if Thrown(fileErr).Some? then Throw(Thrown(fileErr).value) else Ok(()))
    ensures ConsoleSeverity(level, logToConsole).Ok? && Thrown(consoleErr).None? && FileSeverity(level, logToDirectory).Throw? ==>
      && r == Throw(ArgumentOutOfRange("level"))
      && lib.calls == old(lib.calls)
        + [NativeCall(Invoke("ob_set_logger_to_console"), 0, [ConsoleSeverity(level, logToConsole).value])]
        + CheckErrorCalls(consoleErr, true)
  {
    var consoleSeverity := ConsoleSeverity(level, logToConsole);
    if consoleSeverity.Throw? {
      return Throw(consoleSeverity.exc);
    }
    lib.Call(Invoke("ob_set_logger_to_console"), 0, [consoleSeverity.value]);
    r := Check(lib, consoleErr);
    if r.Throw? {
      return;
    }
    var fileSeverity := FileSeverity(level, logToDirectory);
    if fileSeverity.Throw? {
      return Throw(fileSeverity.exc);
    }
    lib.Call(Invoke("ob_set_logger_to_file"), 0, [fileSeverity.value] + Chars(DirectoryArgument(logToDirectory)));
    r := Check(lib, fileErr);
  }
}
