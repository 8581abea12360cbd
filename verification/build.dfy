/** `_compile` and `run`: one compile of the generated configuration, its
    outcome classified, and the strict/loose failure policy applied. */
module Build {
  import opened Wrappers
  import opened FileSystem
  import opened JsObjects
  import opened ErrorReporter
  import opened Descriptors
  import opened Engine
  import ConfigSynth

  datatype CompileOutcome = Compiled(stats: Stats) | CompileFailed(exception: Thrown)

  /** `_compile(config)`: an invocation error or a compile with errors becomes a
      `Compile error` exception (wrapping the error, or the error dump);
      anything else, warnings included, is a success carrying the stats. */
  function Compile(outcome: EngineOutcome): (r: CompileOutcome)
    ensures r.CompileFailed? <==> outcome.EngineFailed? || outcome.stats.hasErrors
    ensures outcome.EngineFailed? ==>
              r.exception == Error(SimpleWebpackException, "Compile error", Some(outcome.err))
    ensures outcome.EngineFinished? && outcome.stats.hasErrors ==>
              r.exception == Error(SimpleWebpackException, "Compile error",
                                   Some(Plain("WebpackStatsInfo:\n" + outcome.stats.errorDump)))
    ensures r.Compiled? ==> outcome == EngineFinished(r.stats) && !r.stats.hasErrors
  {
    match outcome
    case EngineFailed(err) => CompileFailed(Error(SimpleWebpackException, "Compile error", Some(err)))
    case EngineFinished(stats) =>
      if stats.hasErrors then
        CompileFailed(Error(SimpleWebpackException, "Compile error",
                            Some(Plain("WebpackStatsInfo:\n" + stats.errorDump))))
      else Compiled(stats)
  }

  /** What `run` resolves to: the options, source, target and configuration,
      the stats of a successful compile (`webpack`) and the measured time. */
  datatype RunStats = RunStats(
    options: RunOptions,
    source: Source,
    target: Target,
    config: Object,
    webpack: Option<Stats>,
    time: nat)

  /** A run either rejects with a thrown value or completes; either way the
      host is as the run left it. A loose failure may leave a log line. */
  datatype RunOutcome =
    | Rejected(thrown: Thrown, host: Host)
    | Completed(stats: RunStats, host: Host, logged: Option<string>)

  /** `run(source, target, options)`. `engine` is the bundling engine applied to
      the configuration and `elapsed` the time the timer measures. */
  function Run(inst: Instance, h: Host, render: Renderer, sourcePath: Path, targetPath: Path,
               arg: OptionsArgument, engine: Object -> EngineOutcome, elapsed: nat): (r: RunOutcome)
    // Configuration failures always reject, strict or loose.
    ensures var g := ConfigSynth.GenerateConfig(inst.production, h, sourcePath, targetPath, arg);
            g.0.Err? ==> r == Rejected(g.0.error, g.1)
    ensures var g := ConfigSynth.GenerateConfig(inst.production, h, sourcePath, targetPath, arg);
            g.0.Ok? ==> match Compile(engine(g.0.value.config))
                        // A successful compile completes with its stats.
                        case Compiled(stats) =>
                          r == Completed(RunStats(g.0.value.options, g.0.value.source, g.0.value.target,
                                                  g.0.value.config, Some(stats), elapsed), g.1, None)
                        // A failed compile rejects in strict mode ...
                        case CompileFailed(e) =>
                          (inst.strict ==> r == Rejected(e, g.1))
                          // ... and completes without stats in loose mode.
                          && (!inst.strict ==>
                                && r.Completed?
                                && r == Completed(RunStats(g.0.value.options, g.0.value.source, g.0.value.target,
                                                           g.0.value.config, None, elapsed), g.1, r.logged)
                                && (r.logged.Some? <==> inst.canLogErrors)
                                && (r.logged.Some? ==> r.logged.value == ExceptionAsOutput(e, inst.verbose, false, render)))
    // Every completed run either carries error-free stats or is a loose run.
    ensures r.Completed? ==> (r.stats.webpack.Some? ==> !r.stats.webpack.value.hasErrors)
                             && (r.stats.webpack.None? ==> !inst.strict)
  {
    var (setup, h') := ConfigSynth.GenerateConfig(inst.production, h, sourcePath, targetPath, arg);
    match setup
    case Err(e) => Rejected(e, h')
    case Ok(s) =>
      var base := RunStats(s.options, s.source, s.target, s.config, None, elapsed);
      match Compile(engine(s.config))
      case Compiled(stats) => Completed(base.(webpack := Some(stats)), h', None)
      case CompileFailed(e) =>
        match ReportError(inst, e, false, render)
        case Throw(thrown) => Rejected(thrown, h')
        case Logged(line) => Completed(base, h', Some(line))
        case Ignored => Completed(base, h', None)
  }

  /** A loose compile failure is logged with its stack exactly in verbose
      mode, and with its short text otherwise. */
  lemma LooseFailureLogged(inst: Instance, h: Host, render: Renderer, sourcePath: Path, targetPath: Path,
                           arg: OptionsArgument, engine: Object -> EngineOutcome, elapsed: nat)
    requires !inst.strict && inst.canLogErrors
    requires ConfigSynth.GenerateConfig(inst.production, h, sourcePath, targetPath, arg).0.Ok?
    requires Compile(engine(ConfigSynth.GenerateConfig(inst.production, h, sourcePath, targetPath, arg).0.value.config))
             .CompileFailed?
    ensures var e := Compile(engine(ConfigSynth.GenerateConfig(inst.production, h, sourcePath, targetPath, arg).0.value.config))
                     .exception;
            var r := Run(inst, h, render, sourcePath, targetPath, arg, engine, elapsed);
            r.Completed? && r.logged == Some(if inst.verbose then render.stack(e) else render.text(e))
  {
    var g := ConfigSynth.GenerateConfig(inst.production, h, sourcePath, targetPath, arg);
    var e := Compile(engine(g.0.value.config)).exception;
    assert e.Error?;
    assert ReportError(inst, e, false, render) == Logged(ExceptionAsOutput(e, inst.verbose, false, render));
  }

  /** The failure policy only matters once a compile has run: a configuration
      failure rejects identically in strict and loose mode. */
  lemma PolicyIgnoredBeforeCompile(inst: Instance, h: Host, render: Renderer, sourcePath: Path, targetPath: Path,
                                   arg: OptionsArgument, engine: Object -> EngineOutcome, elapsed: nat)
    requires ConfigSynth.GenerateConfig(inst.production, h, sourcePath, targetPath, arg).0.Err?
    ensures Run(inst, h, render, sourcePath, targetPath, arg, engine, elapsed)
            == Run(inst.(strict := !inst.strict), h, render, sourcePath, targetPath, arg, engine, elapsed)
  {
  }
}
