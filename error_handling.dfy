/** Severity-tagged exceptions and the level-driven handling policy of
    handle_exception.h. An exception is a message plus the optional
    `error_level` tag that `throw_exception` attaches; logging and the
    caller-supplied hooks are reported as values instead of performed. */
module ErrorHandling {

  import opened Wrappers
  import opened Text

  /** `enum class ErrorLevel`. */
  datatype ErrorLevel = Warning | Error | Critical | Unknown

  /** `enum class HandleStatus`. */
  datatype HandleStatus = Continue | Stop | Rethrow

  /** The sink level a message is logged at (`LOG_WARN`, `LOG_ERROR`, `LOG_CRITICAL`). */
  datatype LogLevel = LogWarn | LogError | LogCritical

  /** An exception object; `level` is None when no `error_level` is attached
      (or the object is not a `boost::exception` at all). */
  datatype Exception = Exception(what: string, level: Option<ErrorLevel>)

  /** The three optional handler pointers of `handle_exception`. */
  datatype Hook = WarningHook | ErrorHook | CriticalHook

  /** What one call of `handle_exception` does: the status it returns, the
      level it logs at and the hook it invokes (None when that hook is null). */
  datatype Handled = Handled(status: HandleStatus, logged: LogLevel, invoked: Option<Hook>)

  /** `throw_exception(x, level, loc)`: the thrown object carries `level`. */
  function ThrowException(what: string, level: ErrorLevel): Exception {
    Exception(what, Some(level))
  }

  /** The hook a level selects: an untagged exception, or one tagged
      `E_UNKNOWN` (no case of the switch), goes to the error hook. */
  function HookFor(level: Option<ErrorLevel>): Hook {
    match level
    case Some(Warning) => WarningHook
    case Some(Critical) => CriticalHook
    case _ => ErrorHook
  }

  /** Calls hook `k` only when it is installed (not a null pointer). */
  function Invoke(k: Hook, installed: set<Hook>): Option<Hook> {
    if k in installed then Some(k) else None
  }

  /** `handle_exception(e_ptr, handle_warning, handle_error, handle_critical)`;
      `installed` holds the hooks that are not null. */
  function HandleException(e: Exception, installed: set<Hook>): Handled {
    match e.level
    case Some(Warning) => Handled(Continue, LogWarn, Invoke(WarningHook, installed))
    case Some(Error) => Handled(Stop, LogError, Invoke(ErrorHook, installed))
    case Some(Critical) => Handled(Rethrow, LogCritical, Invoke(CriticalHook, installed))
    case _ => Handled(Stop, LogError, Invoke(ErrorHook, installed))
  }

  /** What `PROCESS_HANDLE_STATUS(status, exception)` makes its enclosing code do. */
  datatype Control = FallThrough | Return | Throw(thrown: Exception)

  function ProcessHandleStatus(status: HandleStatus, exception: Exception): Control {
    match status
    case Continue => FallThrough
    case Stop => Return
    case Rethrow => Throw(exception)
  }

  /** `LogMessage(level, message)`: the sink level used for each error level. */
  function LogMessage(level: ErrorLevel): LogLevel {
    match level
    case Warning => LogWarn
    case Unknown => LogError
    case Error => LogError
    case Critical => LogCritical
  }

  /** The level an exception is treated as: a missing tag counts as `E_UNKNOWN`. */
  function EffectiveLevel(e: Exception): ErrorLevel {
    if e.level.Some? then e.level.value else Unknown
  }

  /** The outcome of `CPPTOOLKIT_CHECK_API_ERRORCODE`. */
  datatype ApiCheck = Passed | Raised(logged: LogLevel, thrown: Exception)

  const ApiErrorInfix: string := " returned an error: "

  /** `CPPTOOLKIT_CHECK_API_ERRORCODE(errorCode, noErrorCode, operationName, level)`. */
  function CheckApiErrorCode(errorCode: int, noErrorCode: int, operationName: string, level: ErrorLevel): ApiCheck {
    if errorCode == noErrorCode then Passed
    else
      var message := operationName + ApiErrorInfix + IntToDecimal(errorCode);
      Raised(LogMessage(level), ThrowException(message, level))
  }

  // ---------------------------------------------------------------------
  // Properties

  /** The status `handle_exception` returns depends on the tag only:
      CONTINUE exactly for WARNING, RETHROW exactly for CRITICAL, STOP for
      ERROR, E_UNKNOWN and an untagged exception. */
  lemma HandleExceptionStatus(e: Exception, installed: set<Hook>)
    ensures HandleException(e, installed).status == Continue <==> e.level == Some(Warning)
    ensures HandleException(e, installed).status == Rethrow <==> e.level == Some(Critical)
    ensures HandleException(e, installed).status == Stop <==> EffectiveLevel(e) in {Error, Unknown}
  {
  }

  /** At most one hook runs, it is the one the level selects, and a null
      hook is skipped. */
  lemma HandleExceptionInvokesMatchingHook(e: Exception, installed: set<Hook>)
    ensures HandleException(e, installed).invoked == (if HookFor(e.level) in installed then Some(HookFor(e.level)) else None)
  {
  }

  /** `handle_exception` logs at the sink level `LogMessage` uses for the
      exception's effective level, so E_UNKNOWN and E_ERROR log alike. */
  lemma HandleExceptionLogsLikeLogMessage(e: Exception, installed: set<Hook>)
    ensures HandleException(e, installed).logged == LogMessage(EffectiveLevel(e))
    ensures LogMessage(Unknown) == LogMessage(Error)
  {
  }

  /** `PROCESS_HANDLE_STATUS` after `handle_exception`: WARNING falls through,
      CRITICAL throws the given exception, everything else returns. */
  lemma ProcessHandleStatusAfterHandling(e: Exception, installed: set<Hook>, x: Exception)
    ensures ProcessHandleStatus(HandleException(e, installed).status, x) == FallThrough <==> e.level == Some(Warning)
    ensures ProcessHandleStatus(HandleException(e, installed).status, x) == Throw(x) <==> e.level == Some(Critical)
    ensures ProcessHandleStatus(HandleException(e, installed).status, x) == Return <==> EffectiveLevel(e) in {Error, Unknown}
  {
  }

  /** The level `throw_exception` attaches is the one `handle_exception` reads back. */
  lemma ThrownLevelIsReadBack(what: string, level: ErrorLevel, installed: set<Hook>)
    ensures EffectiveLevel(ThrowException(what, level)) == level
    ensures HandleException(ThrowException(what, level), installed) == HandleException(Exception(what, Some(level)), installed)
  {
  }

  /** The error-code check is silent exactly when the code is the "no error"
      value. Otherwise it logs at `LogMessage(level)` and throws an exception
      tagged `level` whose message is the operation name, the fixed infix and
      the decimal error code, which reads back as that code. */
  lemma CheckApiErrorCodeContract(errorCode: int, noErrorCode: int, operationName: string, level: ErrorLevel)
    ensures CheckApiErrorCode(errorCode, noErrorCode, operationName, level).Passed? <==> errorCode == noErrorCode
    ensures errorCode != noErrorCode ==>
      var r := CheckApiErrorCode(errorCode, noErrorCode, operationName, level);
      var prefix := operationName + ApiErrorInfix;
      && r.logged == LogMessage(level)
      && r.thrown.level == Some(level)
      && |r.thrown.what| > |prefix|
      && r.thrown.what[..|prefix|] == prefix
      && ParseDecimal(r.thrown.what[|prefix|..]) == Some(errorCode)
  {
    if errorCode != noErrorCode {
      var prefix := operationName + ApiErrorInfix;
      var message := prefix + IntToDecimal(errorCode);
      assert message[..|prefix|] == prefix;
      assert message[|prefix|..] == IntToDecimal(errorCode);
      IntToDecimalRoundTrip(errorCode);
    }
  }
}
