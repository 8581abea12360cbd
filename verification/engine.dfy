/** What the core sees of the bundling engine: the outcome of one compile and
    the parts of its stats object that the core reads. */
module Engine {
  import opened Wrappers
  import opened ErrorReporter

  /** One emitted asset of `toJson().assets`; `size` is absent when the engine
      gives none. */
  datatype Asset = Asset(name: string, size: Option<nat>, chunkNames: seq<string>)

  /** `stats.toJson(...)`: assets, warnings, the entry point names, the build
      hash and the engine's own compile time in milliseconds. */
  datatype StatsJson = StatsJson(
    assets: seq<Asset>,
    warnings: seq<string>,
    entrypoints: set<string>,
    hash: string,
    time: nat)

  /** The stats object: `hasErrors()`, `hasWarnings()`, the text of
      `toString` with the error options and with the warnings-only options, and
      `toJson`. */
  datatype Stats = Stats(
    hasErrors: bool,
    hasWarnings: bool,
    errorDump: string,
    warningsDump: string,
    json: StatsJson)

  /** The callback of one `webpack(config, callback)` call: an invocation error,
      or finished stats. */
  datatype EngineOutcome = EngineFailed(err: Thrown) | EngineFinished(stats: Stats)
}
