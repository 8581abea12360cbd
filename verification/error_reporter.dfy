/** Thrown values, the state of a `SimpleWebpack` instance that governs error
    handling, and the two members that turn a failure into a throw or a log
    line: `_exceptionAsOutput` and `error`. */
module ErrorReporter {
  import opened Wrappers

  datatype ErrorClass =
    | SimpleWebpackException  // the core's own exception class
    | EngineError             // an error raised by the bundling engine
    | TypeError               // a runtime type error

  /** Anything a `throw` can carry: a plain message, or an Error object with a
      message and an optional wrapped cause. */
  datatype Thrown =
    | Plain(text: string)
    | Error(errorClass: ErrorClass, message: string, cause: Option<Thrown>)

  /** A `SimpleWebpackException` without a cause. */
  function Failure(message: string): (t: Thrown)
    ensures t.Error? && t.errorClass == SimpleWebpackException && t.message == message
  {
    Error(SimpleWebpackException, message, None)
  }

  /** How the runtime renders an Error object: its `stack` property and its
      string form `msg + ''`. */
  datatype Renderer = Renderer(stack: Thrown -> string, text: Thrown -> string)

  /** The instance state: `strict` (default true), `verbose` (default true),
      `production` (default: `NODE_ENV` is `production`) and whether the console
      given to the constructor has an `error` function. */
  datatype Instance = Instance(strict: bool, verbose: bool, production: bool, canLogErrors: bool)

  /** The constructor. */
  function NewInstance(canLogErrors: bool, nodeEnv: Option<string>): (inst: Instance)
    ensures inst.strict && inst.verbose
    ensures inst.production <==> nodeEnv == Some("production")
    ensures inst.canLogErrors == canLogErrors
  {
    Instance(true, true, nodeEnv == Some("production"), canLogErrors)
  }

  /** `_exceptionAsOutput(msg, noTrace)`: the stack of an Error in verbose mode
      unless traces are suppressed, its short string form otherwise; anything
      that is not an Error passes through unchanged. */
  function ExceptionAsOutput(msg: Thrown, verbose: bool, noTrace: bool, render: Renderer): (r: string)
    ensures msg.Plain? ==> r == msg.text
    ensures msg.Error? && verbose && !noTrace ==> r == render.stack(msg)
    ensures msg.Error? && !(verbose && !noTrace) ==> r == render.text(msg)
  {
    match msg
    case Plain(text) => text
    case Error(_, _, _) => if verbose && !noTrace then render.stack(msg) else render.text(msg)
  }

  /** What `error(msg, always)` does. */
  datatype ErrorAction = Throw(thrown: Thrown) | Logged(line: string) | Ignored

  /** `error(msg, always)`: throws `msg` when the error is fatal or the instance
      is strict; otherwise logs it through the console when one can log errors,
      and does nothing else. */
  function ReportError(inst: Instance, msg: Thrown, always: bool, render: Renderer): (r: ErrorAction)
    ensures r.Throw? <==> always || inst.strict
    ensures r.Throw? ==> r.thrown == msg
    ensures r.Logged? <==> !always && !inst.strict && inst.canLogErrors
    ensures r.Logged? ==> r.line == ExceptionAsOutput(msg, inst.verbose, false, render)
  {
    if always || inst.strict then Throw(msg)
    else if inst.canLogErrors then Logged(ExceptionAsOutput(msg, inst.verbose, false, render))
    else Ignored
  }
}
