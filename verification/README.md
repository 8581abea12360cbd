# simple-webpack, modelled in Dafny

This project models the core of `simple-webpack`, a command line wrapper that
turns a source path and a target directory into a webpack configuration, runs
the bundler and reports what it wrote. The model covers:

- the `SimpleWebpack` class: the instance settings (`strict`, `verbose`,
  `production`), `_exceptionAsOutput` and `error` (the failure policy),
  `_parseOptions`, `_resolveSource` (the three source read modes and their
  filters), `_resolveTarget` (create-or-check of the output directory),
  `_getEntry` (one combined entry or one entry per file name), `_getOutput`,
  `generateConfig` (stage order, the fixed plugin and loader rule, the
  extension applied last), the classification done by `_compile`, and `run`;
- the pure parts of the command line: positional arguments, the mode
  conflict, instance settings, analyzer, devtool, index mode, bundle name,
  prepend list, minification, extension loading, colour limits, the closing
  summary and the exit codes;
- `getFileStats` (the asset line and its size colour), `generateStats` (the
  stats report) and `getWarningsWithoutHeading`.

The file system is a `Host` value: a map from resolved paths to kinds, plus
the directory listers, `path.resolve` and the root-relative mapper as opaque
functions. The bundling engine is a function from configuration to outcome.
Thrown values are data (`Thrown`), and every operation that can throw returns
a `Result`. JavaScript built-ins the core relies on are written out: `trim`,
`indexOf`, `split`/`filter`/`join`, `parseInt` (with `NaN`),
Node's posix `basename`/`extname`/`dirname`/`join`, and `Object.assign`.
Strings are sequences of Unicode code points. JavaScript counts string
positions in UTF-16 code units, and the one place where a position is
compared with a number, the 25-unit heading limit of
`getWarningsWithoutHeading`, counts code units (`Strings.CodeUnits`). The
other operations cut only at whole characters, and counting either way gives
the same result there.

Modules, one per file: `Wrappers`, `Strings`, `Paths`, `FileSystem`,
`JsObjects`, `ErrorReporter`, `Descriptors`, `SourceResolver`,
`TargetResolver`, `EntryMapper`, `ConfigSynth`, `Engine`, `Build`,
`FileStats`, `Warnings`, `StatsReport`, `Cli`.

Points where the code's behaviour is easy to misread:

- An asset line with stats on and a size has six parts: chunks, `[`,
  `Output:`, size, `]` and file.
- `generateStats` in a non-verbose run with no asset pushes onto a list that
  was never created and throws a `TypeError`; `GenerateStats` returns that
  error.
- The target directory is created before `_getEntry` can reject an empty
  bundle name, so a failed `generateConfig` can still leave a new directory
  behind. `GenerateConfig` returns the host in both outcomes.
- In strict mode the command line's `catch` calls `error`, which rethrows the
  rendered text, so `cli()` rejects with that text and never reaches
  `process.exit(1)`.
- The colour limits are never checked for order: `500,400,200` is accepted as
  given.

## Model

| member | source | states |
|---|---|---|
| ErrorReporter.NewInstance | src/classes/SimpleWebpack.js:35-75 | A new instance is strict and verbose; it is in production exactly when `NODE_ENV` is `production`. |
| ErrorReporter.ExceptionAsOutput | src/classes/SimpleWebpack.js:84-99 | A non-error value is output unchanged; an error gives its stack only when verbose and a trace is allowed, otherwise its short text. |
| ErrorReporter.ReportError | src/classes/SimpleWebpack.js:112-123 | `error` throws exactly when forced or strict, and throws the value it was given; otherwise it logs the rendered value exactly when a logger exists. |
| Descriptors.ParseOptions | src/classes/SimpleWebpack.js:131-136 | A plain object is used as the options; anything else becomes empty options. |
| Descriptors.ParseOptionsIdempotent | src/classes/SimpleWebpack.js:131-136 | Options that were parsed once are a plain object and parse to themselves. |
| SourceResolver.ReadModeOf | src/classes/SimpleWebpack.js:163-167 | Only the values `index` and `recursive` select those modes; every other value reads the directory. |
| SourceResolver.EffectiveFilter | src/classes/SimpleWebpack.js:163-181 | A caller's filter always wins; otherwise index mode gets the index filter and directory mode the `.js` filter; recursive mode alone has none. |
| SourceResolver.ResolveSource | src/classes/SimpleWebpack.js:145-198 | A missing path, recursive mode without filter, and an empty listing fail with their messages, and these are the only failures; success has at least one `./`-relative file, a directory is its own root with the listing under the installed filter, a file is its own single entry under its parent directory. |
| SourceResolver.ResolveSourceStable | src/classes/SimpleWebpack.js:171-181 | Resolving again with the options the first resolution returned gives the same source and options: the installed filter is the one used. |
| SourceResolver.RootRelative | src/classes/SimpleWebpack.js:193-195 | Every listed file becomes `./` followed by its path relative to the root, one for one and in order. |
| Paths.DirnameBasename | src/classes/SimpleWebpack.js:189 | The parent of `dir/name` is `dir` and its base name is `name`, for a plain file name. |
| TargetResolver.ResolveTarget | src/classes/SimpleWebpack.js:206-223 | An existing non-directory fails with its message and nothing else fails; afterwards the target is a directory; a pre-existing one leaves the host unchanged, and a missing one is created with no other change to the host. |
| TargetResolver.ResolveTargetIdempotent | src/classes/SimpleWebpack.js:211-221 | Resolving a target a second time succeeds without creating anything and leaves the host as the first call left it. |
| FileSystem.MakeDirectory | src/classes/SimpleWebpack.js:214 | Creating a directory makes that path a directory and changes no other path. |
| EntryMapper.GetEntry | src/classes/SimpleWebpack.js:272-294 | An empty bundle name fails with its message; a name gives exactly one entry holding the prepended modules followed by the files, and the source now lists that; no name gives one entry per file name with the source untouched. |
| EntryMapper.CombinedFiles | src/classes/SimpleWebpack.js:280-283 | The prepend list, when given, comes before the source files; otherwise the files are kept as they are. |
| EntryMapper.IndividualEntries | src/classes/SimpleWebpack.js:286-291 | There are never more entries than files and each entry holds a single file. |
| EntryMapper.IndividualEntriesKeys | src/classes/SimpleWebpack.js:287-291 | A name is an entry key exactly when some file has that name. |
| EntryMapper.IndividualEntriesLastWins | src/classes/SimpleWebpack.js:287-291 | When several files share a name, the entry holds the last of them. |
| EntryMapper.DistinctNamesKeepEveryFile | src/classes/SimpleWebpack.js:287-291 | When all file names differ, every file is the entry under its own name. |
| Paths.EntryName | src/classes/SimpleWebpack.js:289 | The entry name followed by the extension is the base name, and it is non-empty when the base name is. |
| Paths.EntryNameOfScript | src/classes/SimpleWebpack.js:289 | The entry name of `dir/name.js` is `name`. |
| ConfigSynth.GetOutput | src/classes/SimpleWebpack.js:303-312 | Output goes to the resolved target; the file name pattern has `.min` exactly in production; a public path is set exactly when a non-empty one is given. |
| ConfigSynth.OutputObject | src/classes/SimpleWebpack.js:304-310 | The output object holds `filename` and `path`, and `publicPath` exactly when one is set, with the values of the output record. |
| ConfigSynth.BaseConfig | src/classes/SimpleWebpack.js:236-254 | The configuration has exactly the seven top-level keys: the mode of the instance, the source root as context, one entry key per entry (a string for a single file, a string array for the combined entry), the output object, the ESLint plugin, the babel rule and the minimisation flag of the mode. |
| ConfigSynth.BaseConfigConsistent | src/classes/SimpleWebpack.js:237-253 | Before the extension, the mode, the minimisation flag and the `.min` file names all agree with the production setting. |
| ConfigSynth.ApplyExtension | src/classes/SimpleWebpack.js:256-261 | A function extension produces the configuration or throws, a plain object is merged over the top level, anything else changes nothing; only a function can throw. |
| ConfigSynth.OverrideWinsMinimize | src/classes/SimpleWebpack.js:253-261 | An `optimization` override replaces the computed one in either mode. |
| ConfigSynth.OverridesKeepConsistency | src/classes/SimpleWebpack.js:256-261 | Overrides that leave `mode`, `output` and `optimization` alone keep the configuration consistent. |
| ConfigSynth.OverrideCanBreakConsistency | src/classes/SimpleWebpack.js:256-261 | Nothing checks an extension: a production configuration can be made not to minimise. |
| ConfigSynth.Assemble | src/classes/SimpleWebpack.js:236-262 | After resolution, an entry failure or a throwing extension function is the result; otherwise the result is the base configuration with the extension applied; nothing else fails. |
| ConfigSynth.ThrowingExtensionFails | src/classes/SimpleWebpack.js:257-258 | An extension function that throws makes the configuration fail with what it threw. |
| ConfigSynth.AssembleWithoutExtension | src/classes/SimpleWebpack.js:236-262 | Without an extension the result is consistent and its mode is the instance's. |
| ConfigSynth.GenerateConfig | src/classes/SimpleWebpack.js:232-263 | Source, target and entry run in that order: a source failure leaves the host untouched, a target failure comes next, and once both resolve the host is the one target resolution left (only the target directory may be new) and the result is the assembly. |
| ConfigSynth.EmptyNameAfterTargetCreated | src/classes/SimpleWebpack.js:234-239 | An empty bundle name fails, yet the missing target directory has already been created. |
| JsObjects.Assign | src/classes/SimpleWebpack.js:260 | The merged object has the keys of both; the overriding object's values win and the others are kept. |
| Build.Compile | src/classes/SimpleWebpack.js:321-345 | A compile fails exactly when the engine fails or reports errors, wrapping the engine's error or the error dump; otherwise the stats are passed on unchanged. |
| Build.Run | src/classes/SimpleWebpack.js:354-379 | A configuration failure always rejects; a successful compile completes with its stats; a failed compile rejects in strict mode and in loose mode completes with the same options, source, target, configuration and host but no stats, logging the failure when a logger exists. |
| Build.PolicyIgnoredBeforeCompile | src/classes/SimpleWebpack.js:356-371 | A configuration failure rejects in the same way whether the instance is strict or loose. |
| Build.LooseFailureLogged | src/classes/SimpleWebpack.js:84-123 | A loose compile failure is logged with its stack exactly in verbose mode, and with its short text otherwise. |
| FileStats.Classify | src/functions/getFileStatsFn.js:37-44 | A size is valid when within green, a notice when within yellow only, an error when above red and neither, unmarked otherwise. |
| FileStats.ClassifyAscending | src/functions/getFileStatsFn.js:37-44 | With ascending limits the four classes are the four size bands. |
| FileStats.ClassifyMonotone | src/functions/getFileStatsFn.js:37-44 | For any numeric limits, a larger size never gets a milder class. |
| FileStats.ClassifyNaN | src/functions/getFileStatsFn.js:38-44 | With limits that are not numbers every comparison fails and every size is unmarked. |
| FileStats.GetFileStats | src/functions/getFileStatsFn.js:20-58 | An asset line is chunks, then the arrow or the bracket block, then `./` and the file; the block holds the labelled, classified size exactly when the asset has a non-zero size. |
| Warnings.WithoutHeading | src/functions/getWarningsWithoutHeading.js:6-12 | The result is a suffix of the trimmed dump; a first line whose newline lies below 25 UTF-16 code units is cut, keeping its line break, and otherwise the trimmed dump is kept whole. |
| Warnings.AstralFirstLineKept | src/functions/getWarningsWithoutHeading.js:8-11 | A first line of 13 characters above U+FFFF is 26 code units long, so it is not cut. |
| Warnings.AstralHeadingCut | src/functions/getWarningsWithoutHeading.js:8-11 | A first line of 12 such characters is 24 code units long and is cut. |
| Strings.CodeUnits | src/functions/getWarningsWithoutHeading.js:8-9 | A text takes between one and two code units per character, and one each exactly when every character is at most U+FFFF. |
| Strings.Trim | src/functions/getWarningsWithoutHeading.js:7 | The trimmed text stands in the input with only whitespace before and after it, and neither starts nor ends with whitespace. |
| Strings.TrimIdempotent | src/functions/getWarningsWithoutHeading.js:7 | Trimming a trimmed text changes nothing. |
| StatsReport.GenerateStats | src/functions/generateStats.js:15-54 | The overview carries hash, times and the source count, with the output count exactly when it differs; details exist exactly when not verbose, one row per asset then a spacer, and a non-verbose run with no asset throws; warnings appear exactly in a quiet, loose run that has some. |
| Cli.Positionals | src/cli.js:34-39 | Two arguments are source and target; a lone argument is the target with an empty source. |
| Cli.PositionalsStable | src/cli.js:34-39 | The rule is idempotent and an empty target always comes with an empty source. |
| Cli.Production | src/cli.js:153-157 | `--production` forces production, otherwise `--development` forces development, otherwise the environment decides. |
| Cli.ConfigModeFollowsFlags | src/cli.js:153-157 | The configuration is in production mode exactly when `--production` is given, or no mode flag is and the environment says production. |
| Cli.AnalyzerOf | src/cli.js:160-179 | No analyzer without the flag; a bare flag means static mode; any other given mode is used as is, with the stats flag and gzip sizes; the server mode is refused. |
| Cli.AnalyzerModes | src/cli.js:160-179 | A given mode is refused exactly when it is `server` and is otherwise the analyzer mode. |
| Cli.AnalyzerBareIsStatic | src/cli.js:163-165 | A bare flag gives the same analyzer as `--analyze static`. |
| Cli.Devtool | src/cli.js:182-188 | A given source map kind is used as is; a bare flag picks `source-map` in production and `eval-source-map` otherwise. |
| Cli.BareMapFollowsMode | src/cli.js:182-188 | A bare `--map` picks `source-map` exactly in production mode; a given kind does not depend on the mode. |
| Cli.BundleName | src/cli.js:196-198 | A bundle name is set only with `--bundle`, and is then never empty. |
| Cli.CliBundleNameNeverEmpty | src/cli.js:196-198 | A run started from the command line never hits the empty-name failure. |
| Strings.NonEmptyPieces | src/cli.js:202-203 | The non-empty pieces contain no separator and together spell the input with its separators removed. |
| Strings.NonEmptyPiecesOfJoin | src/cli.js:202-203 | Separator-free pieces, empty ones included, joined with the separator come back as exactly the non-empty pieces, in their order. |
| Strings.KeepNonEmptyAppend | src/cli.js:203 | Filtering keeps the pieces in order: the filter of two lists one after the other is the two filters one after the other. |
| Strings.JoinSplit | src/cli.js:202 | Joining the pieces of a split with the same separator gives the input back. |
| Strings.SplitJoin | src/cli.js:248 | Splitting a join of separator-free pieces gives the pieces back. |
| Cli.PrependList | src/cli.js:201-207 | The prepend list is set exactly when the flag has a non-comma character; its pieces are non-empty, comma-free and spell the flag without commas. |
| Cli.PrependListOfPieces | src/cli.js:201-207 | The list is exactly the non-empty comma pieces of the flag in their order, and unset when there is none: `a,b` and `,a,,b,` both give `a` then `b`. |
| Cli.ExtensionPath | src/cli.js:218-223 | A bare `--extend` names `extend.webpack.config.js` in the working directory; a value names itself. |
| Cli.LoadExtension | src/cli.js:218-245 | A load failure and a value that is neither a plain object nor a function stop the command line; an object becomes overrides and a function a mutator. |
| Strings.ParseInt | src/cli.js:250 | `parseInt` is not a number exactly when no digit follows the leading white space and sign. |
| Strings.ParseIntNatToString | src/cli.js:250 | A number written in decimal is read back as itself. |
| Cli.ColourMarks | src/cli.js:247-266 | Anything but three non-empty pieces gives the default limits; three pieces give one limit each, in order. |
| Cli.ColourMarksReadBack | src/cli.js:247-266 | Three numbers written with commas become those many KiB, in the order given, whatever that order. |
| Cli.Normalise | src/cli.js:101-266 | The mode conflict, `--version`, `--defaults`, `server` analysis and an extension failure stop, in that order and with their reasons; otherwise the run proceeds with the instance settings, index mode, bundle name, prepend list, source map, analyzer, loaded extension and colour limits the flags ask for, and no filter or public path. |
| Cli.Summary | src/cli.js:341-345 | The closing line starts with `simple-webpack wrote [ ` followed at once by the asset count in decimal. |
| Cli.SummaryCountReadsBack | src/cli.js:341-345 | The asset count in the closing line reads back with `parseInt`. |
| Cli.SummaryVerboseIgnoresWarnings | src/cli.js:341-345 | A verbose closing line does not depend on the warning count. |
| Cli.Plural | src/cli.js:341-344 | The word stays singular exactly for a count of one and takes an `s` otherwise. |
| Cli.SummaryWarningsReadBack | src/cli.js:341-345 | A quiet closing line carries the warning count, which reads back with `parseInt` after ` with [`. |
| Cli.Conclude | src/cli.js:316-345 | No stats means failure; warnings are shown exactly when there are some and the run is strict or verbose; asset lines are shown, one per asset, exactly when verbose. |
| Cli.WarningsShownOnce | src/cli.js:326-331 | With `--stats`, warnings are printed by the closing output or the report, never both, and by one of them exactly when there are some. |
| Cli.AssetLinesShownOnce | src/cli.js:333-337 | With `--stats` and at least one asset, asset lines are printed by the closing output or the report's details, exactly one of them. |
| Cli.WentWrongStackOnlyWhenVerbose | src/cli.js:306-308 | The wrapped failure text of a thrown run is its stack exactly in verbose mode. |
| Cli.AfterRun | src/cli.js:300-358 | A thrown run makes `cli()` reject with the rendered text in strict mode and exit with 1 otherwise; no stats exits with 1; stats exit with 0, with the report under `--stats`, unless generating the report throws. |
| Cli.Main | src/cli.js:25-358 | The mode conflict, `server` analysis and a bad extension exit with 1, `--version` and `--defaults` with 0; `--show-config` exits with 0 unless generating the configuration throws; a build with stats exits with 0, under `--stats` with the report, unless generating the report throws (a quiet run without assets), in which case `cli()` rejects; a build without stats exits with 1, and a thrown build rejects in strict mode and exits with 1 in loose mode. |
| Cli.CompileFailureNeverExitsZero | src/cli.js:300-323 | When every compile fails, the command line never exits with 0 short of `--version`, `--defaults` or `--show-config`, in strict and loose mode alike. |

## Left out

- Console output, colours and styling (`cfx`, `StatsDisplay`, `leadingZeros`,
  `convertBytes`, `convertMs2Hrtime`), the progress spinner and the timer:
  only what is printed, not how, is modelled; times are parameters.
- The webpack engine, the ESLint plugin and babel: the engine is a parameter
  and the plugin and loader rule are constant values in the configuration.
- Directory listing and regular-expression matching (`FsInterface.files`,
  `fileList`, `relative2root`) and `path.resolve`: opaque functions of the
  host; the read filters are kept as their regular-expression sources.
- Creating a directory creates only that path; parent directories are not
  modelled.
- The update notice, the random lottery that triggers it, reading
  `package.json` and its failure, the version text and `deployDefaultConfig`:
  they only print or write files; `--version` and `--defaults` are modelled as
  stops with exit code 0.
- `--show-config` printing: the model keeps only that it generates the
  configuration and exits 0, or ends unhandled when generation throws.
- The "Running in strict mode", "Reading from", "Wrote to" and default
  colours notices: output only.
- The analyzer settings, `devtool`, `minify` and `keepnames` are computed by
  the command line and carried in the options, but the core never reads them
  into the configuration, so the model does not either.
- The `Unknown compile error` branch of `_compile`: it is reached only when
  `hasErrors()` answers differently on two calls, which the model rules out by
  taking `hasErrors` as a value.
- EntryMapper.IndividualEntries: a plain JavaScript object does not store the
  key `__proto__`, and a string assigned to it is ignored. A source file named
  `__proto__.js` therefore gives no entry in the source, where the model's map
  keeps one.
- EntryMapper.GetEntry: for the same reason `--bundle --name __proto__` leaves
  the entry object without keys (the file list becomes its prototype), where
  the model gives one entry under that name.
- JsObjects.Assign: an overriding object with its own `__proto__` key replaces
  the merged object's prototype and adds no key; the model adds the key like
  any other. Objects are modelled as maps with no prototype chain.
- Build.Compile: the error dump and the thrown error's text are taken as
  given strings rather than rendered from the engine's stats.
- ConfigSynth.ApplyExtension: a function extension is modelled as returning
  the changed configuration or the value it throws. It is not given the
  instance, its fourth argument in the source. Changes it makes to the
  source, target or instance objects are not modelled.
- ConfigSynth.BaseConfig: the order of the keys of the configuration object
  and of the entry object is not modelled (a map has none), although webpack
  receives the entry keys in insertion order.
- Paths.Join: models `path.join` only for a plain file name appended to a
  directory, not its full normalisation of `.` and `..` segments.
- Strings.ParseInt: its contract states only when the result is not a
  number; the value itself is pinned down by Strings.ParseIntNatToString for
  plain decimal text. The precision limit of large numbers is not modelled.
- TargetResolver.ResolveTarget: creating a missing directory always succeeds;
  a failed creation, which the source would report as not a directory, is not
  modelled.
- Cli.Main: the process ends are modelled as outcomes; `process.exit` and the
  awaiting of promises are not.
