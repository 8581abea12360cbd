/** The command line: the pure steps that turn parsed flags into the
    instance settings, run options and colour limits, the closing summary,
    and the whole flow from flags to exit code. */
module Cli {
  import opened Wrappers
  import opened Strings
  import opened FileSystem
  import opened JsObjects
  import opened ErrorReporter
  import opened Descriptors
  import opened Engine
  import opened FileStats
  import opened StatsReport
  import opened EntryMapper
  import Paths
  import Warnings
  import Build
  import ConfigSynth

  /** A flag that may be absent (`null`), given bare (`true`) or given a value. */
  datatype FlagValue = Unset | Bare | Given(text: string)

  predicate Truthy(v: FlagValue)
  {
    v.Bare? || (v.Given? && v.text != [])
  }

  /** The parsed flags, one field per flag of the command line. */
  datatype Flags = Flags(
    version: bool, stats: bool, analyze: FlagValue, verbose: bool,
    dev: bool, prod: bool, nominify: bool, keepnames: bool,
    devtool: FlagValue, extend: FlagValue, prepend: Option<string>,
    bundle: bool, name: Option<string>, index: bool, colors: string,
    config: bool, defaults: bool, loose: bool)

  /** The two positional arguments (`''` when absent) as source and target: a
      lone argument is the target, and the source is then empty. */
  function Positionals(first: string, second: string): (r: (string, string))
    ensures second != [] ==> r == (first, second)
    ensures second == [] ==> r == ([], first)
  {
    if second == [] then ([], first) else (first, second)
  }

  /** Applying the rule to its own result changes nothing, and an empty target
      always comes with an empty source. */
  lemma PositionalsStable(first: string, second: string)
    ensures var (source, target) := Positionals(first, second);
            Positionals(source, target) == (source, target) && (target == [] ==> source == [])
  {
  }

  /** Why the command line stops before building. */
  datatype ExitReason =
    | ModeConflict                      // both --development and --production
    | ShowVersion                       // --version
    | DeployDefaults                    // --defaults
    | AnalyzerServer                    // --analyze server
    | ExtensionNotLoaded(path: string)  // the extension file could not be required
    | ExtensionInvalid                  // it exported neither a plain object nor a function

  function ExitCode(reason: ExitReason): (code: int)
    ensures code == 0 <==> reason.ShowVersion? || reason.DeployDefaults?
    ensures code == 0 || code == 1
  {
    if reason.ShowVersion? || reason.DeployDefaults? then 0 else 1
  }

  /** The instance mode: `--production` forces production, otherwise
      `--development` forces development, otherwise `NODE_ENV` decides. */
  function Production(flags: Flags, nodeEnv: Option<string>): (production: bool)
    ensures flags.prod ==> production
    ensures !flags.prod && flags.dev ==> !production
    ensures !flags.prod && !flags.dev ==> (production <==> nodeEnv == Some("production"))
  {
    if flags.prod then true else if flags.dev then false else nodeEnv == Some("production")
  }

  /** The bundle analyzer settings. */
  datatype Analyzer = Analyzer(analyzerMode: string, generateStatsFile: bool, defaultSizes: string)

  /** `--analyze`: a bare flag means `static`, the `server` mode is refused. */
  function AnalyzerOf(flags: Flags): (r: Result<Option<Analyzer>, ExitReason>)
    ensures !Truthy(flags.analyze) ==> r == Ok(None)
    ensures flags.analyze.Bare? ==> r == Ok(Some(Analyzer("static", flags.stats, "gzip")))
    ensures flags.analyze == Given("server") ==> r == Err(AnalyzerServer)
    ensures flags.analyze.Given? && flags.analyze.text != [] && flags.analyze.text != "server" ==>
              r == Ok(Some(Analyzer(flags.analyze.text, flags.stats, "gzip")))
    ensures r.Ok? && r.value.Some? ==> Truthy(flags.analyze) && r.value.value.analyzerMode != "server"
    ensures r.Err? ==> r.error == AnalyzerServer
  {
    if !Truthy(flags.analyze) then Ok(None)
    else
      var mode := if flags.analyze.Bare? then "static" else flags.analyze.text;
      if mode == "server" then Err(AnalyzerServer)
      else Ok(Some(Analyzer(mode, flags.stats, "gzip")))
  }

  /** `--map`: a value is passed through, a bare flag picks the source map
      kind of the mode. */
  function Devtool(flag: FlagValue, production: bool): (r: Option<string>)
    ensures !Truthy(flag) ==> r.None?
    ensures flag.Given? && flag.text != [] ==> r == Some(flag.text)
    ensures flag.Bare? ==> r == Some(if production then "source-map" else "eval-source-map")
  {
    if !Truthy(flag) then None
    else if flag.Given? then Some(flag.text)
    else Some(if production then "source-map" else "eval-source-map")
  }

  /** The generated configuration's `mode` is `production` exactly when
      `--production` is given, or neither mode flag is and `NODE_ENV` says
      production. */
  lemma ConfigModeFollowsFlags(flags: Flags, nodeEnv: Option<string>, source: Source,
                               entry: EntryMap, output: ConfigSynth.Output)
    requires !(flags.dev && flags.prod)
    ensures ConfigSynth.BaseConfig(Production(flags, nodeEnv), source, entry, output)["mode"] == Str("production")
            <==> flags.prod || (!flags.dev && nodeEnv == Some("production"))
  {
  }

  /** A bare `--map` picks `source-map` exactly when the mode is production,
      and a given kind does not depend on the mode. */
  lemma BareMapFollowsMode(flags: Flags, nodeEnv: Option<string>, kind: string)
    requires !(flags.dev && flags.prod) && kind != []
    ensures var production := Production(flags, nodeEnv);
            && (Devtool(Bare, production) == Some("source-map")
                <==> ConfigSynth.ModeName(production) == "production")
            && Devtool(Given(kind), production) == Devtool(Given(kind), !production)
  {
  }

  /** Every analyzer mode but `server` is passed on as given. */
  lemma AnalyzerModes(flags: Flags, mode: string)
    requires mode != []
    ensures var r := AnalyzerOf(flags.(analyze := Given(mode)));
            (r.Err? <==> mode == "server") && (r.Ok? ==> r.value.value.analyzerMode == mode)
  {
    var given := flags.(analyze := Given(mode));
    assert Truthy(given.analyze);
  }

  /** A bare `--analyze` is the same as `--analyze static`. */
  lemma AnalyzerBareIsStatic(flags: Flags)
    ensures AnalyzerOf(flags.(analyze := Bare)) == AnalyzerOf(flags.(analyze := Given("static")))
  {
    var staticMode := Analyzer("static", flags.stats, "gzip");
    assert "static" != "server" by { assert "static"[1] != "server"[1]; }
    assert AnalyzerOf(flags.(analyze := Given("static"))) == Ok(Some(staticMode));
  }

  /** `--bundle` with `--name`: the given name unless it is empty, else
      `bundle`; no bundle name at all without `--bundle`. */
  function BundleName(flags: Flags): (r: Option<string>)
    ensures !flags.bundle ==> r.None?
    ensures flags.bundle ==> r.Some? && r.value != []
    ensures flags.bundle && flags.name.Some? && flags.name.value != [] ==> r == flags.name
    ensures flags.bundle && (flags.name.None? || flags.name == Some([])) ==> r == Some("bundle")
  {
    if !flags.bundle then None
    else if flags.name.Some? && flags.name.value != [] then flags.name
    else Some("bundle")
  }

  lemma {:induction false} ConcatEmpty(pieces: seq<string>)
    requires forall p :: p in pieces ==> p != []
    ensures Concat(pieces) == [] <==> |pieces| == 0
  {
    if |pieces| > 0 {
      assert pieces[0] in pieces;
    }
  }

  /** `--modules`: the non-empty comma-separated pieces, set only when there is
      at least one. Together they spell the flag's text without commas. */
  function PrependList(flags: Flags): (r: Option<seq<string>>)
    ensures r.None? <==> flags.prepend.None? || Without(flags.prepend.value, ',') == []
    ensures r.Some? ==> |r.value| > 0 && Concat(r.value) == Without(flags.prepend.value, ',')
    ensures r.Some? ==> forall p :: p in r.value ==> p != [] && ',' !in p
  {
    if flags.prepend.None? || flags.prepend.value == [] then None
    else
      var pieces := NonEmptyPieces(flags.prepend.value, ',');
      ConcatEmpty(pieces);
      if |pieces| > 0 then Some(pieces) else None
  }

  /** Every text is its comma pieces joined with commas; the list is then the
      non-empty pieces in their order: `a,b` gives `a` and `b`, `,a,,b,` too,
      and a text of commas gives none. */
  lemma PrependListOfPieces(flags: Flags, pieces: seq<string>)
    requires flags.prepend == Some(Join(pieces, ","))
    requires forall k :: 0 <= k < |pieces| ==> ',' !in pieces[k]
    ensures PrependList(flags) == (if KeepNonEmpty(pieces) == [] then None else Some(KeepNonEmpty(pieces)))
  {
    NonEmptyPiecesOfJoin(pieces, ',');
  }

  /** One colour limit: `parseInt(piece, 10) * 1024`. */
  function KibLimit(piece: string): (t: Threshold)
    ensures t.NaN? <==> ParseInt(piece).None?
    ensures t.Bytes? ==> t.n == ParseInt(piece).value * 1024
  {
    match ParseInt(piece)
    case None => NaN
    case Some(n) => Bytes(n * 1024)
  }

  /** `--colors`: three comma-separated KiB limits; any other count of
      non-empty pieces gives the defaults. The order of the limits is not
      checked. */
  function ColourMarks(colors: string): (m: Marks)
    ensures |NonEmptyPieces(colors, ',')| != 3 ==> m == DefaultMarks
    ensures var p := NonEmptyPieces(colors, ',');
            |p| == 3 ==> m == Marks(KibLimit(p[0]), KibLimit(p[1]), KibLimit(p[2]))
  {
    var pieces := NonEmptyPieces(colors, ',');
    if |pieces| != 3 then DefaultMarks
    else Marks(KibLimit(pieces[0]), KibLimit(pieces[1]), KibLimit(pieces[2]))
  }

  /** Three numbers written out with commas are read back as those many KiB,
      in the order given: `500,400,200` is accepted as it stands. */
  lemma ColourMarksReadBack(green: nat, yellow: nat, red: nat)
    ensures ColourMarks(NatToString(green) + "," + NatToString(yellow) + "," + NatToString(red))
            == Marks(Bytes(green * 1024), Bytes(yellow * 1024), Bytes(red * 1024))
  {
    NoCommaInDigits(green);
    NoCommaInDigits(yellow);
    NoCommaInDigits(red);
    ColourMarksOfThree(NatToString(green), NatToString(yellow), NatToString(red));
    KibLimitOfNat(green);
    KibLimitOfNat(yellow);
    KibLimitOfNat(red);
  }

  /** Three non-empty comma-free pieces give one limit each, in order. */
  lemma ColourMarksOfThree(a: string, b: string, c: string)
    requires a != [] && b != [] && c != []
    requires ',' !in a && ',' !in b && ',' !in c
    ensures ColourMarks(a + "," + b + "," + c) == Marks(KibLimit(a), KibLimit(b), KibLimit(c))
  {
    JoinThree(a, b, c, ',');
    NonEmptyPiecesJoin([a, b, c], ',');
  }

  lemma NoCommaInDigits(n: nat)
    ensures ',' !in NatToString(n)
  {
  }

  lemma JoinThree(a: string, b: string, c: string, sep: char)
    ensures Join([a, b, c], [sep]) == a + [sep] + b + [sep] + c
  {
    assert [a, b, c][1..] == [b, c];
    assert [b, c][1..] == [c];
    assert Join([c], [sep]) == c;
    assert Join([b, c], [sep]) == b + [sep] + c;
  }

  lemma KibLimitOfNat(n: nat)
    ensures KibLimit(NatToString(n)) == Bytes(n * 1024)
  {
    ParseIntNatToString(n);
  }

  /** What `--extend` loads: a failure, a plain object, a function, or a value
      of any other shape. */
  datatype Loaded =
    | LoadFailed(error: Thrown)
    | LoadedObject(fields: Object)
    | LoadedFunction(apply: (Object, Source, Target) -> Result<Object, Thrown>)
    | LoadedOther

  const ExtensionFileName := "extend.webpack.config.js"

  /** The file `--extend` names: the given path, or the default file in the
      working directory for a bare flag. */
  function ExtensionPath(flag: FlagValue, cwd: string): (r: Option<string>)
    ensures !Truthy(flag) <==> r.None?
    ensures flag.Bare? ==> (r == Some(Paths.Join(cwd, ExtensionFileName))
                            && Paths.Basename(r.value) == ExtensionFileName)
    ensures flag.Given? && flag.text != [] ==> r == Some(flag.text)
  {
    if !Truthy(flag) then None
    else if flag.Bare? then
      Paths.JoinBasename(cwd, ExtensionFileName);
      Some(Paths.Join(cwd, ExtensionFileName))
    else Some(flag.text)
  }

  /** Loading the extension: a plain object becomes overrides and a function a
      mutator; a load failure or another shape stops the command line. */
  function LoadExtension(flags: Flags, cwd: string, load: string -> Loaded): (r: Result<Extension, ExitReason>)
    ensures ExtensionPath(flags.extend, cwd).None? ==> r == Ok(NoExtension)
    ensures r.Ok? ==> !r.value.OtherValue?
    ensures var path := ExtensionPath(flags.extend, cwd);
            path.Some? ==> match load(path.value)
                           case LoadFailed(_) => r == Err(ExtensionNotLoaded(path.value))
                           case LoadedObject(fields) => r == Ok(Overrides(fields))
                           case LoadedFunction(apply) => r.Ok? && r.value.Mutator? && r.value.apply == apply
                           case LoadedOther => r == Err(ExtensionInvalid)
  {
    match ExtensionPath(flags.extend, cwd)
    case None => Ok(NoExtension)
    case Some(path) =>
      match load(path)
      case LoadFailed(_) => Err(ExtensionNotLoaded(path))
      case LoadedObject(fields) => Ok(Overrides(fields))
      case LoadedFunction(apply) => Ok(Mutator(apply))
      case LoadedOther => Err(ExtensionInvalid)
  }

  /** Everything the command line hands to the build. */
  datatype CliSetup = CliSetup(
    source: string,
    target: string,
    instance: Instance,
    options: RunOptions,
    analyzer: Option<Analyzer>,
    marks: Marks)

  datatype CliStep = Stop(reason: ExitReason) | Proceed(setup: CliSetup)

  /** The option steps in their order: the mode conflict, `--version`,
      `--defaults`, instance settings, analyzer, devtool, index mode, bundle
      name, prepend list, minification, keep-names, extension, colour limits. */
  function Normalise(flags: Flags, first: string, second: string, nodeEnv: Option<string>,
                     cwd: string, load: string -> Loaded): (r: CliStep)
    // The stops, in the order the command line checks them.
    ensures flags.dev && flags.prod ==> r == Stop(ModeConflict)
    ensures !(flags.dev && flags.prod) && flags.version ==> r == Stop(ShowVersion)
    ensures !(flags.dev && flags.prod) && !flags.version && flags.defaults ==> r == Stop(DeployDefaults)
    ensures !(flags.dev && flags.prod) && !flags.version && !flags.defaults && AnalyzerOf(flags).Err? ==>
              r == Stop(AnalyzerServer)
    ensures !(flags.dev && flags.prod) && !flags.version && !flags.defaults && AnalyzerOf(flags).Ok?
            && LoadExtension(flags, cwd, load).Err? ==>
              r == Stop(LoadExtension(flags, cwd, load).error)
    ensures r.Proceed? <==> !(flags.dev && flags.prod) && !flags.version && !flags.defaults
                            && AnalyzerOf(flags).Ok? && LoadExtension(flags, cwd, load).Ok?
    ensures r.Proceed? ==> var s := r.setup;
              && (s.source, s.target) == Positionals(first, second)
              && s.instance.strict == !flags.loose
              && s.instance.verbose == flags.verbose
              && s.instance.production == Production(flags, nodeEnv)
              && s.instance.canLogErrors
              && (s.options.source == Some("index") <==> flags.index)
              && (s.options.source.Some? ==> flags.index)
              && s.options.name == BundleName(flags)
              && s.options.prepend == PrependList(flags)
              && s.options.devtool == Devtool(flags.devtool, s.instance.production)
              && s.options.read.None? && s.options.public.None?
              && LoadExtension(flags, cwd, load) == Ok(s.options.extend)
              && AnalyzerOf(flags) == Ok(s.analyzer)
              && s.marks == ColourMarks(flags.colors)
  {
    if flags.dev && flags.prod then Stop(ModeConflict)
    else if flags.version then Stop(ShowVersion)
    else if flags.defaults then Stop(DeployDefaults)
    else
      var initial := NewInstance(true, nodeEnv);
      var inst := initial.(strict := if flags.loose then false else initial.strict,
                           verbose := flags.verbose,
                           production := Production(flags, nodeEnv));
      match AnalyzerOf(flags)
      case Err(reason) => Stop(reason)
      case Ok(analyzer) =>
        match LoadExtension(flags, cwd, load)
        case Err(reason) => Stop(reason)
        case Ok(extension) =>
          var options := RunOptions(
            source := if flags.index then Some("index") else None,
            name := BundleName(flags),
            read := None,
            public := None,
            extend := extension,
            prepend := PrependList(flags),
            devtool := Devtool(flags.devtool, inst.production),
            minify := if flags.nominify then Some(false) else None,
            keepnames := Some(flags.keepnames));
          var (source, target) := Positionals(first, second);
          Proceed(CliSetup(source, target, inst, options, analyzer, ColourMarks(flags.colors)))
  }

  /** A run started from the command line never fails on the bundle name. */
  lemma CliBundleNameNeverEmpty(flags: Flags, first: string, second: string, nodeEnv: Option<string>,
                                cwd: string, load: string -> Loaded)
    requires Normalise(flags, first, second, nodeEnv, cwd, load).Proceed?
    ensures Normalise(flags, first, second, nodeEnv, cwd, load).setup.options.name != Some([])
  {
  }

  /** `word`, plural unless the count is exactly one. */
  function Plural(word: string, count: nat): (r: string)
    ensures count == 1 <==> r == word
    ensures count != 1 <==> r == word + "s"
  {
    if count == 1 then word else word + "s"
  }

  const SummaryHead := "simple-webpack wrote [ "

  /** The closing line: the asset count, the warning count unless verbose (a
      verbose run printed them already), and the elapsed time. */
  function Summary(assets: nat, warnings: nat, verbose: bool, elapsed: string): (s: string)
    // The fixed heading, then the asset count in decimal, ...
    ensures |SummaryHead| + |NatToString(assets)| <= |s|
    ensures s[..|SummaryHead|] == SummaryHead
    ensures s[|SummaryHead|..|SummaryHead| + |NatToString(assets)|] == NatToString(assets)
  {
    var tail := SummaryTail(assets, warnings, verbose, elapsed);
    LeadingPieces(SummaryHead, NatToString(assets), tail);
    SummaryHead + NatToString(assets) + tail
  }

  /** Slicing a concatenation gives back its first two pieces. */
  lemma LeadingPieces(a: string, b: string, c: string)
    ensures var s := a + b + c;
            && |a| + |b| <= |s| && s[..|a|] == a && s[|a|..|a| + |b|] == b
  {
    var s := a + b + c;
    assert s[..|a|] == a;
  }

  function SummaryTail(assets: nat, warnings: nat, verbose: bool, elapsed: string): string
  {
    " ] " + Plural("file", assets)
    + (if verbose then "" else " with [" + NatToString(warnings) + "] " + Plural("warning", warnings))
    + " in " + elapsed
  }

  /** A verbose summary does not depend on the warning count. */
  lemma SummaryVerboseIgnoresWarnings(assets: nat, w1: nat, w2: nat, elapsed: string)
    ensures Summary(assets, w1, true, elapsed) == Summary(assets, w2, true, elapsed)
  {
  }

  lemma {:induction false} DigitPrefixStops(digits: string, rest: string)
    requires forall k :: 0 <= k < |digits| ==> IsDigit(digits[k])
    requires rest != [] && !IsDigit(rest[0])
    ensures DigitPrefix(digits + rest) == digits
    decreases |digits|
  {
    if |digits| > 0 {
      assert (digits + rest)[1..] == digits[1..] + rest;
      DigitPrefixStops(digits[1..], rest);
    } else {
      assert digits + rest == rest;
    }
  }

  /** A number followed by a non-digit is read back by `parseInt`. */
  lemma ParseIntLeadingNat(n: nat, rest: string)
    requires rest != [] && !IsDigit(rest[0])
    ensures ParseInt(NatToString(n) + rest) == Some(n)
  {
    var digits := NatToString(n);
    DigitPrefixStops(digits, rest);
    assert !IsJsWhitespace(digits[0]);
    assert TrimStart(digits + rest) == digits + rest;
    assert AfterSign(digits + rest) == digits + rest;
    DecimalValueOfNatToString(n);
  }

  /** The asset count can be read back from the summary with `parseInt`. */
  lemma SummaryCountReadsBack(assets: nat, warnings: nat, verbose: bool, elapsed: string)
    ensures var s := Summary(assets, warnings, verbose, elapsed);
            |s| > |SummaryHead| && ParseInt(s[|SummaryHead|..]) == Some(assets)
  {
    var s := Summary(assets, warnings, verbose, elapsed);
    var tail := SummaryTail(assets, warnings, verbose, elapsed);
    assert s[|SummaryHead|..] == NatToString(assets) + tail;
    assert tail[0] == ' ';
    ParseIntLeadingNat(assets, tail);
  }

  /** Where the warning count starts in a quiet summary. */
  function WarningsOffset(assets: nat): nat
  {
    |SummaryHead| + |NatToString(assets)| + |" ] "| + |Plural("file", assets)| + |" with ["|
  }

  /** A quiet summary carries the warning count, readable with `parseInt`
      right after ` with [`. */
  lemma SummaryWarningsReadBack(assets: nat, warnings: nat, elapsed: string)
    ensures var s := Summary(assets, warnings, false, elapsed);
            WarningsOffset(assets) < |s| && ParseInt(s[WarningsOffset(assets)..]) == Some(warnings)
  {
    var s := Summary(assets, warnings, false, elapsed);
    var before := SummaryHead + NatToString(assets) + " ] " + Plural("file", assets) + " with [";
    var after := "] " + Plural("warning", warnings) + " in " + elapsed;
    assert s == before + NatToString(warnings) + after;
    assert |before| == WarningsOffset(assets);
    assert s[|before|..] == NatToString(warnings) + after;
    ParseIntLeadingNat(warnings, after);
  }

  /** The verbose asset lines: one line of file stats per asset, in order. */
  function AssetLines(showStats: bool, marks: Marks, assets: seq<Asset>): (r: seq<seq<Part>>)
    ensures |r| == |assets|
    ensures forall i :: 0 <= i < |r| ==> r[i] == GetFileStats(showStats, marks, assets[i])
  {
    seq(|assets|, i requires 0 <= i < |assets| => GetFileStats(showStats, marks, assets[i]))
  }

  /** What the command line prints after a run. */
  datatype Conclusion =
    | UnknownFailure
    | Wrote(shownWarnings: Option<string>, assetLines: seq<seq<Part>>, summary: string)

  /** After the run: no stats is a failure; otherwise warnings are printed
      when strict or verbose, the asset lines when verbose, then the summary. */
  function Conclude(inst: Instance, showStats: bool, marks: Marks, webpack: Option<Stats>, elapsed: string)
    : (r: Conclusion)
    ensures r.UnknownFailure? <==> webpack.None?
    ensures r.Wrote? ==> var st := webpack.value;
              && (r.shownWarnings.Some? <==> st.hasWarnings && (inst.verbose || inst.strict))
              && (r.shownWarnings.Some? ==> r.shownWarnings.value == Warnings.WithoutHeading(st.warningsDump))
              && |r.assetLines| == (if inst.verbose then |st.json.assets| else 0)
              && (forall i :: 0 <= i < |r.assetLines| ==> r.assetLines[i] == GetFileStats(showStats, marks, st.json.assets[i]))
              && r.summary == Summary(|st.json.assets|, |st.json.warnings|, inst.verbose, elapsed)
  {
    match webpack
    case None => UnknownFailure
    case Some(st) =>
      var assets := st.json.assets;
      var shown := if st.hasWarnings && (inst.verbose || inst.strict) then Some(Warnings.WithoutHeading(st.warningsDump)) else None;
      var lines := if inst.verbose then AssetLines(showStats, marks, assets) else [];
      Wrote(shown, lines, Summary(|assets|, |st.json.warnings|, inst.verbose, elapsed))
  }

  /** Warnings reach the user exactly once: the closing output prints them in a
      strict or verbose run, the report in the other runs. */
  lemma WarningsShownOnce(inst: Instance, marks: Marks, time: nat, st: Stats, elapsed: string)
    requires GenerateStats(inst.verbose, true, marks, inst, time, st).Ok?
    ensures var c := Conclude(inst, true, marks, Some(st), elapsed);
            var rep := GenerateStats(inst.verbose, true, marks, inst, time, st).value;
            && (c.shownWarnings.Some? && rep.warnings.Some? ==> false)
            && (st.hasWarnings <==> c.shownWarnings.Some? || rep.warnings.Some?)
  {
  }

  /** Asset lines reach the user exactly once: the closing output prints them
      in a verbose run, the report's details in the other runs. */
  lemma AssetLinesShownOnce(inst: Instance, marks: Marks, time: nat, st: Stats, elapsed: string)
    requires |st.json.assets| > 0
    ensures var c := Conclude(inst, true, marks, Some(st), elapsed);
            var rep := GenerateStats(inst.verbose, true, marks, inst, time, st);
            && rep.Ok?
            && (|c.assetLines| > 0 <==> rep.value.details.None?)
  {
  }

  /** How `cli()` ends: with `process.exit` and a code (and the report when
      one was shown), or by rejecting its promise with a thrown value before
      reaching `process.exit`. */
  datatype CliOutcome = Exited(code: int, report: Option<Report>) | Unhandled(thrown: Thrown)

  /** The text `cli()` renders for a thrown run: the run's error wrapped as
      `Something went wrong`, with its trace only in verbose mode. */
  function WentWrong(inst: Instance, thrown: Thrown, render: Renderer): string
  {
    ExceptionAsOutput(Thrown.Error(SimpleWebpackException, "Something went wrong", Some(thrown)),
                      inst.verbose, !inst.verbose, render)
  }

  /** The wrapped failure shows its stack exactly in verbose mode. */
  lemma WentWrongStackOnlyWhenVerbose(inst: Instance, thrown: Thrown, render: Renderer)
    ensures var e := Thrown.Error(SimpleWebpackException, "Something went wrong", Some(thrown));
            && (inst.verbose ==> WentWrong(inst, thrown, render) == render.stack(e))
            && (!inst.verbose ==> WentWrong(inst, thrown, render) == render.text(e))
  {
  }

  /** The end of the flow once the run returned or threw. A thrown run is
      wrapped and passed to `error`, which rethrows in strict mode. */
  function AfterRun(flags: Flags, setup: CliSetup, render: Renderer, run: Build.RunOutcome, elapsed: string)
    : (r: CliOutcome)
    // A thrown run: `cli()` rejects with the rendered text when strict, and exits with 1 when loose.
    ensures run.Rejected? && setup.instance.strict ==> r == Unhandled(Plain(WentWrong(setup.instance, run.thrown, render)))
    ensures run.Rejected? && !setup.instance.strict ==> r == Exited(1, None)
    ensures run.Completed? && run.stats.webpack.None? ==> r == Exited(1, None)
    // A successful build exits with 0, showing the report with `--stats`.
    ensures run.Completed? && run.stats.webpack.Some? && !flags.stats ==> r == Exited(0, None)
    ensures run.Completed? && run.stats.webpack.Some? && flags.stats ==>
              var g := GenerateStats(flags.verbose, true, setup.marks, setup.instance, run.stats.time, run.stats.webpack.value);
              (g.Ok? ==> r == Exited(0, Some(g.value))) && (g.Err? ==> r == Unhandled(g.error))
    ensures r.Exited? && r.code == 0 ==> run.Completed? && run.stats.webpack.Some?
    ensures r.Exited? && r.report.Some? ==> flags.stats && r.code == 0
  {
    var inst := setup.instance;
    match run
    case Rejected(e, _) =>
      (match ReportError(inst, Plain(WentWrong(inst, e, render)), false, render)
       case Throw(t) => Unhandled(t)
       case _ => Exited(1, None))
    case Completed(stats, _, _) =>
      match Conclude(inst, flags.stats, setup.marks, stats.webpack, elapsed)
      case UnknownFailure => Exited(1, None)
      case Wrote(_, _, _) =>
        if flags.stats then
          match GenerateStats(flags.verbose, flags.stats, setup.marks, inst, stats.time, stats.webpack.value)
          case Err(e) => Unhandled(e)
          case Ok(report) => Exited(0, Some(report))
        else Exited(0, None)
  }

  /** The whole command line, given the parsed flags and positionals, the
      environment, the extension loader, the host, the engine and the times.
      `--show-config` ends after generating the configuration. */
  function Main(flags: Flags, first: string, second: string, nodeEnv: Option<string>, cwd: string,
                load: string -> Loaded, h: Host, render: Renderer, engine: Object -> EngineOutcome,
                elapsed: nat, elapsedText: string): (r: CliOutcome)
    // The early stops: the mode conflict, `server` analysis and a bad extension exit with 1,
    // `--version` and `--defaults` with 0.
    ensures flags.dev && flags.prod ==> r == Exited(1, None)
    ensures !(flags.dev && flags.prod) && (flags.version || flags.defaults) ==> r == Exited(0, None)
    ensures !(flags.dev && flags.prod) && !flags.version && !flags.defaults && flags.analyze == Given("server") ==>
              r == Exited(1, None)
    ensures (!(flags.dev && flags.prod) && !flags.version && !flags.defaults && AnalyzerOf(flags).Ok?
             && LoadExtension(flags, cwd, load).Err?) ==> r == Exited(1, None)
    // `--show-config` exits with 0 unless generating the configuration throws.
    ensures var step := Normalise(flags, first, second, nodeEnv, cwd, load);
            step.Proceed? && flags.config ==>
              var g := ConfigSynth.GenerateConfig(step.setup.instance.production, h, step.setup.source,
                                                  step.setup.target, PlainObject(step.setup.options)).0;
              (g.Ok? ==> r == Exited(0, None)) && (g.Err? ==> r == Unhandled(g.error))
    // Otherwise the build runs: success exits with 0 (with `--stats`, showing the report,
    // unless generating it throws), no stats with 1, and a thrown run rejects when strict
    // and exits with 1 when loose.
    ensures var step := Normalise(flags, first, second, nodeEnv, cwd, load);
            step.Proceed? && !flags.config ==>
              var run := Build.Run(step.setup.instance, h, render, step.setup.source, step.setup.target,
                                   PlainObject(step.setup.options), engine, elapsed);
              && (run.Completed? && run.stats.webpack.Some? && !flags.stats ==> r == Exited(0, None))
              && (run.Completed? && run.stats.webpack.Some? && flags.stats ==>
                    var g := GenerateStats(flags.verbose, true, step.setup.marks, step.setup.instance,
                                           run.stats.time, run.stats.webpack.value);
                    (g.Ok? ==> r == Exited(0, Some(g.value))) && (g.Err? ==> r == Unhandled(g.error)))
              && (run.Completed? && run.stats.webpack.None? ==> r == Exited(1, None))
              && (run.Rejected? && flags.loose ==> r == Exited(1, None))
              && (run.Rejected? && !flags.loose ==> r.Unhandled?)
    ensures r.Exited? && r.report.Some? ==> flags.stats
  {
    match Normalise(flags, first, second, nodeEnv, cwd, load)
    case Stop(reason) => Exited(ExitCode(reason), None)
    case Proceed(setup) =>
      if flags.config then
        match ConfigSynth.GenerateConfig(setup.instance.production, h, setup.source, setup.target,
                                         PlainObject(setup.options)).0
        case Err(e) => Unhandled(e)
        case Ok(_) => Exited(0, None)
      else
        AfterRun(flags, setup, render,
                 Build.Run(setup.instance, h, render, setup.source, setup.target,
                           PlainObject(setup.options), engine, elapsed), elapsedText)
  }

  /** With an engine whose every compile fails, the command line never ends
      with exit code 0 (short of `--version`, `--defaults` or `--show-config`):
      a strict run ends unhandled, a loose run has no stats and exits with 1,
      and a configuration failure is thrown before the engine runs. */
  lemma CompileFailureNeverExitsZero(flags: Flags, first: string, second: string, nodeEnv: Option<string>,
                                     cwd: string, load: string -> Loaded, h: Host, render: Renderer,
                                     engine: Object -> EngineOutcome, elapsed: nat, elapsedText: string)
    requires !flags.config && !flags.version && !flags.defaults
    requires forall c :: Build.Compile(engine(c)).CompileFailed?
    ensures var r := Main(flags, first, second, nodeEnv, cwd, load, h, render, engine, elapsed, elapsedText);
            !(r.Exited? && r.code == 0)
  {
    var step := Normalise(flags, first, second, nodeEnv, cwd, load);
    if step.Proceed? {
      var s := step.setup;
      var g := ConfigSynth.GenerateConfig(s.instance.production, h, s.source, s.target, PlainObject(s.options));
      var run := Build.Run(s.instance, h, render, s.source, s.target, PlainObject(s.options), engine, elapsed);
      if g.0.Ok? {
        assert Build.Compile(engine(g.0.value.config)).CompileFailed?;
        assert run.Rejected? || run.stats.webpack.None?;
      } else {
        assert run.Rejected?;
      }
    }
  }
}
