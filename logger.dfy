/**
 * The parts of `LoggerService` with behaviour of their own: choosing the log level, the crash
 * report sent when winston meets an uncaught error, and the exit sequence of `final`. The winston
 * transports, formats and files are not modelled; a logger is the sequence of events it received.
 */
module Logger {
  import opened Wrappers
  import opened Values
  import opened Transport
  import opened Reports
  import Api

  /** The npm logging levels of winston, most severe first. */
  datatype Level = Error | Warn | Info | Http | Verbose | Debug | Silly

  /** The level names `mkLevel` accepts, in the order of the npm levels. */
  const LevelNames: seq<string> := ["error", "warn", "info", "http", "verbose", "debug", "silly"]

  function LevelName(l: Level): (s: string)
    ensures s in LevelNames
  {
    match l
    case Error => "error"
    case Warn => "warn"
    case Info => "info"
    case Http => "http"
    case Verbose => "verbose"
    case Debug => "debug"
    case Silly => "silly"
  }

  /** The level a name denotes, if it denotes one. */
  function ParseLevel(s: string): (r: Option<Level>)
    ensures r.Some? <==> s in LevelNames
    ensures r.Some? ==> LevelName(r.value) == s
  {
    if s == "error" then Some(Error)
    else if s == "warn" then Some(Warn)
    else if s == "info" then Some(Info)
    else if s == "http" then Some(Http)
    else if s == "verbose" then Some(Verbose)
    else if s == "debug" then Some(Debug)
    else if s == "silly" then Some(Silly)
    else None
  }

  /** Level names and levels are in one-to-one correspondence. */
  lemma ParseLevelName(l: Level)
    ensures ParseLevel(LevelName(l)) == Some(l)
  {
  }

  /** Whether an environment variable is truthy: set, and not the empty string. */
  predicate IsSet(variable: Option<string>)
  {
    variable.Some? && variable.value != ""
  }

  /**
   * `mkLevel(LOG_LEVEL)`: the variable itself when it names a level; otherwise `debug` when `DEBUG`
   * is truthy and `info` when it is not.
   */
  function MkLevel(logLevel: Option<string>, debug: Option<string>): (r: string)
    ensures r in LevelNames
    ensures logLevel.Some? && logLevel.value in LevelNames ==> r == logLevel.value
    ensures !(logLevel.Some? && logLevel.value in LevelNames) ==> r == LevelName(if IsSet(debug) then Debug else Info)
  {
    if logLevel.Some? && logLevel.value in LevelNames then logLevel.value
    else if IsSet(debug) then "debug"
    else "info"
  }

  /** Feeding the chosen level back in chooses it again, whatever `DEBUG` is then. */
  lemma MkLevelIdempotent(logLevel: Option<string>, debug: Option<string>, debugLater: Option<string>)
    ensures MkLevel(Some(MkLevel(logLevel, debug)), debugLater) == MkLevel(logLevel, debug)
  {
  }

  /** An unset `LOG_LEVEL` and an empty `DEBUG` give `info`, as an unset `DEBUG` does. */
  lemma EmptyDebugIsUnset(logLevel: Option<string>)
    ensures MkLevel(logLevel, Some("")) == MkLevel(logLevel, None)
  {
  }

  /** One line handed to the logger. */
  datatype LogLine = LogLine(level: Level, message: string)

  /** What `final` was called with: an `Error` instance, or a string. */
  datatype ExitCause = ErrorCause(error: JsError) | TextCause(text: string)

  /** What the logger saw: a line (with the exit cause attached to it when there is one), its end, and the process exit. */
  datatype Event = Logged(line: LogLine) | LoggedCause(line: LogLine, cause: ExitCause) | Ended | Exited

  /** The exit code `final` sets: 1 for an `Error` instance, 0 otherwise. */
  function ExitCode(cause: ExitCause): (code: int)
    ensures code == 1 <==> cause.ErrorCause?
    ensures code == 0 <==> cause.TextCause?
  {
    match cause
    case ErrorCause(_) => 1
    case TextCause(_) => 0
  }

  /** The line naming the log directory. */
  function LogDirLine(logDir: string): LogLine
  {
    LogLine(Info, "Log files saved to " + logDir)
  }

  /** The events of `final`: the cause, the log directory, then the end of the logger, and the exit inside its callback. */
  function FinalEvents(logDir: string, cause: ExitCause): seq<Event>
  {
    var causeLine := match cause
      case ErrorCause(_) => LogLine(Error, "The process was exit cause: ")
      case TextCause(_) => LogLine(Info, "The process was exit cause:");
    [LoggedCause(causeLine, cause), Logged(LogDirLine(logDir)), Ended, Exited]
  }

  /**
   * `final` exits exactly once, as its last step and only after the logger has ended; the cause is
   * logged as an error exactly when the exit code is 1.
   */
  lemma FinalEndsBeforeExit(logDir: string, cause: ExitCause)
    ensures var ev := FinalEvents(logDir, cause);
      && ev[|ev| - 1] == Exited && ev[|ev| - 2] == Ended
      && (forall i :: 0 <= i < |ev| - 1 ==> ev[i] != Exited)
      && ev[0].LoggedCause? && ev[0].cause == cause
      && (ev[0].line.level == Error <==> ExitCode(cause) == 1)
      && ev[1] == Logged(LogDirLine(logDir))
  {
  }

  /**
   * The object the crash handler sends, written out by the handler itself (not through the task
   * service): task id, the reason text `ERRORED`, the time of the crash and the error as data.
   */
  function CrashBody(taskId: string, err: JsError, now: nat): Value
  {
    Obj([Field("taskId", Str(taskId)), Field("reason", Str("ERRORED")), Field("timestamp", Num(now)), Field("data", Err(err))])
  }

  /** The handler's literal is, key for key and in the same order, the errored report carrying the error. */
  lemma CrashBodyIsErroredReport(taskId: string, err: JsError, now: nat)
    ensures CrashBody(taskId, err, now) == ReportValue(TaskReport(taskId, Errored, now, Some(Err(err))))
  {
    var r := TaskReport(taskId, Errored, now, Some(Err(err)));
    assert ReasonName(Errored) == "ERRORED";
    ReportValueHead(r);
    assert ReportValue(r).fields[3] == Field("data", Err(err));
  }

  /** The crash report: a PATCH of the handler's object to the report endpoint, with the header. */
  function CrashReport(api: Api.BackendApi, taskId: string, err: JsError, now: nat): (req: Request)
    ensures req.httpMethod == Patch && req.url == api.reportUrl && req.authorization == api.authorization
    ensures req.body.Some? && Lookup(req.body.value, ["reason"]) == Some(Str("ERRORED"))
    ensures Lookup(req.body.value, ["taskId"]) == Some(Str(taskId))
    ensures Lookup(req.body.value, ["timestamp"]) == Some(Num(now))
    ensures Lookup(req.body.value, ["data"]) == Some(Err(err))
  {
    CrashBodyIsErroredReport(taskId, err, now);
    ReportValueFields(TaskReport(taskId, Errored, now, Some(Err(err))));
    Request(Patch, api.reportUrl, api.authorization, Some(CrashBody(taskId, err, now)))
  }

  class LoggerService {
    const api: Api.BackendApi
    const taskId: string
    /** The temporary directory the log files go to. */
    const logDir: string
    /** The level chosen when the service was built. */
    const level: string
    var events: seq<Event>
    /** `process.exitCode`, `None` while unset. */
    var exitCode: Option<int>
    /** The requests sent, in order. */
    var sent: seq<Request>

    /**
     * The constructor, given the directory `mkdtemp` created and the `LOG_LEVEL` and `DEBUG`
     * variables: it chooses the level and logs where the files are.
     */
    constructor(options: Api.BackendApiOptions, baseDir: string, logLevel: Option<string>, debug: Option<string>)
      requires Api.IsCoveredOptions(options)
      ensures api == Api.New(options) && taskId == options.taskId && logDir == baseDir
      ensures level == MkLevel(logLevel, debug)
      ensures events == [Logged(LogDirLine(baseDir))] && exitCode == None && sent == []
    {
      api := Api.New(options);
      taskId := options.taskId;
      logDir := baseDir;
      level := MkLevel(logLevel, debug);
      events := [Logged(LogDirLine(baseDir))];
      exitCode := None;
      sent := [];
    }

    /**
     * `reportAppErrorStatus`, winston's `exitOnError` callback: it fires the crash report without
     * waiting for it and answers `true` whatever becomes of the request.
     */
    method ReportAppErrorStatus(err: JsError, now: nat) returns (exit: bool)
      modifies this
      ensures exit
      ensures sent == old(sent) + [CrashReport(api, taskId, err, now)]
      ensures events == old(events) && exitCode == old(exitCode)
    {
      sent := sent + [CrashReport(api, taskId, err, now)];
      exit := true;
    }

    /** `final(cause)`: set the exit code, log the cause and the log directory, end the logger, exit. */
    method Final(cause: ExitCause)
      modifies this
      ensures exitCode == Some(ExitCode(cause))
      ensures events == old(events) + FinalEvents(logDir, cause)
      ensures sent == old(sent)
    {
      match cause {
        case ErrorCause(_) =>
          exitCode := Some(1);
          events := events + [LoggedCause(LogLine(Error, "The process was exit cause: "), cause)];
        case TextCause(_) =>
          exitCode := Some(0);
          events := events + [LoggedCause(LogLine(Info, "The process was exit cause:"), cause)];
      }
      events := events + [Logged(LogDirLine(logDir))];
      events := events + [Ended];
      events := events + [Exited];
    }
  }
}
