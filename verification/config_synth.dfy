/** `generateConfig` and `_getOutput`: the webpack configuration object built
    from the resolved source and target, then handed to the user extension. */
module ConfigSynth {
  import opened Wrappers
  import opened FileSystem
  import opened JsObjects
  import opened ErrorReporter
  import opened Descriptors
  import SourceResolver
  import TargetResolver
  import opened EntryMapper

  /** The `output` section before it becomes an object. */
  datatype Output = Output(filename: string, path: Path, publicPath: Option<string>)

  function ModeName(production: bool): string
  {
    if production then "production" else "development"
  }

  /** `_getOutput(target, options)`: minified bundle names in production, the
      target directory as output path, and a public path only when the
      `public` option is a non-empty string. */
  function GetOutput(target: Target, options: RunOptions, production: bool): (o: Output)
    ensures o.path == target.resolved
    ensures production <==> o.filename == "[name].min.js"
    ensures !production <==> o.filename == "[name].js"
    ensures o.publicPath.Some? <==> options.public.Some? && options.public.value != []
    ensures o.publicPath.Some? ==> o.publicPath == options.public
  {
    Output("[name]" + (if production then ".min" else "") + ".js",
           target.resolved,
           if options.public.Some? && options.public.value != [] then options.public else None)
  }

  /** The `output` object: `filename` and `path`, and `publicPath` only when set. */
  function OutputObject(o: Output): (v: Value)
    ensures v.Obj? && "filename" in v.fields && "path" in v.fields
    ensures v.fields.Keys == {"filename", "path"} + (if o.publicPath.Some? then {"publicPath"} else {})
    ensures v.fields["filename"] == Str(o.filename) && v.fields["path"] == Str(o.path)
    ensures o.publicPath.Some? ==> v.fields["publicPath"] == Str(o.publicPath.value)
  {
    Obj(map["filename" := Str(o.filename), "path" := Str(o.path)]
        + (if o.publicPath.Some? then map["publicPath" := Str(o.publicPath.value)] else map[]))
  }

  function EntryObject(entry: EntryMap): Value
  {
    Obj(map name | name in entry :: match entry[name]
                                     case One(file) => Str(file)
                                     case Many(files) => Strings(files))
  }

  /** The ESLint plugin, always attached with `{ fix: true }`. */
  const Plugins: Value := Array([ClassInstance("ESLintPlugin", Obj(map["fix" := Bool(true)]))])

  /** The one transform rule: `.js`/`.mjs` files through babel-loader with preset-env. */
  const ModuleRules: Value :=
    Obj(map["rules" := Array([Obj(map[
      "test" := RegExp("\\.m?js$"),
      "use" := Obj(map[
        "loader" := Str("babel-loader"),
        "options" := Obj(map["presets" := Strings(["@babel/preset-env"])])])])])])

  /** The configuration before the extension is applied. */
  function BaseConfig(production: bool, source: Source, entry: EntryMap, output: Output): (c: Object)
    ensures c.Keys == {"mode", "context", "entry", "output", "plugins", "module", "optimization"}
    ensures c["mode"] == Str(ModeName(production))
    ensures c["context"] == Str(source.root)
    // One key per entry: a single file as a string, a combined entry as a string array.
    ensures c["entry"].Obj? && c["entry"].fields.Keys == entry.Keys
    ensures forall name :: name in entry && entry[name].One? ==> c["entry"].fields[name] == Str(entry[name].file)
    ensures forall name :: name in entry && entry[name].Many? ==>
              var v := c["entry"].fields[name];
              v.Array? && |v.items| == |entry[name].files|
              && forall i :: 0 <= i < |v.items| ==> v.items[i] == Str(entry[name].files[i])
    ensures c["output"] == OutputObject(output)
    ensures c["plugins"] == Plugins && c["module"] == ModuleRules
    ensures c["optimization"] == Obj(map["minimize" := Bool(production)])
  {
    map[
      "mode" := Str(ModeName(production)),
      "context" := Str(source.root),
      "entry" := EntryObject(entry),
      "output" := OutputObject(output),
      "plugins" := Plugins,
      "module" := ModuleRules,
      "optimization" := Obj(map["minimize" := Bool(production)])]
  }

  /** `optimization.minimize` as the engine would read it. */
  function Minimize(c: Object): Option<bool>
  {
    if "optimization" in c && c["optimization"].Obj? && "minimize" in c["optimization"].fields
       && c["optimization"].fields["minimize"].Bool?
    then Some(c["optimization"].fields["minimize"].b)
    else None
  }

  /** `output.filename` as the engine would read it. */
  function Filename(c: Object): Option<string>
  {
    if "output" in c && c["output"].Obj? && "filename" in c["output"].fields
       && c["output"].fields["filename"].Str?
    then Some(c["output"].fields["filename"].s)
    else None
  }

  /** A configuration whose mode, minimisation and file names agree. */
  predicate ModeConsistent(c: Object)
  {
    && "mode" in c && c["mode"].Str?
    && (c["mode"].s == "production" || c["mode"].s == "development")
    && Minimize(c) == Some(c["mode"].s == "production")
    && Filename(c) == Some(if c["mode"].s == "production" then "[name].min.js" else "[name].js")
  }

  /** The base configuration is consistent, and its mode is the one asked for. */
  lemma BaseConfigConsistent(production: bool, source: Source, entry: EntryMap, target: Target, options: RunOptions)
    ensures var c := BaseConfig(production, source, entry, GetOutput(target, options, production));
            ModeConsistent(c) && c["mode"] == Str(ModeName(production)) && Minimize(c) == Some(production)
  {
  }

  /** The extension, applied last: a function returns the configuration it
      changed or throws, a plain object is merged over the top level; any
      other value leaves the configuration alone. Only a function can throw. */
  function ApplyExtension(config: Object, extension: Extension, source: Source, target: Target): (r: Result<Object, Thrown>)
    ensures extension.Overrides? ==> r == Ok(Assign(config, extension.fields))
    ensures extension.Mutator? ==> r == extension.apply(config, source, target)
    ensures extension.NoExtension? || extension.OtherValue? ==> r == Ok(config)
    ensures r.Err? ==> extension.Mutator?
  {
    match extension
    case Mutator(apply) => apply(config, source, target)
    case Overrides(fields) => Ok(Assign(config, fields))
    case _ => Ok(config)
  }

  /** An override of `optimization` wins over the computed flag in either mode. */
  lemma OverrideWinsMinimize(production: bool, source: Source, entry: EntryMap, target: Target,
                             options: RunOptions, overrides: Object)
    requires "optimization" in overrides
    ensures var base := BaseConfig(production, source, entry, GetOutput(target, options, production));
            ApplyExtension(base, Overrides(overrides), source, target).value["optimization"] == overrides["optimization"]
  {
  }

  /** Overrides that leave `mode`, `output` and `optimization` alone keep the
      configuration consistent. */
  lemma OverridesKeepConsistency(production: bool, source: Source, entry: EntryMap, target: Target,
                                 options: RunOptions, overrides: Object)
    requires "mode" !in overrides && "output" !in overrides && "optimization" !in overrides
    ensures var base := BaseConfig(production, source, entry, GetOutput(target, options, production));
            ModeConsistent(ApplyExtension(base, Overrides(overrides), source, target).value)
  {
    var base := BaseConfig(production, source, entry, GetOutput(target, options, production));
    var c := ApplyExtension(base, Overrides(overrides), source, target).value;
    BaseConfigConsistent(production, source, entry, target, options);
    assert c["mode"] == base["mode"] && c["output"] == base["output"] && c["optimization"] == base["optimization"];
    assert Minimize(c) == Minimize(base);
    assert Filename(c) == Filename(base);
  }

  /** Nothing checks the extension: overriding `optimization` alone with
      `{ minimize: false }` leaves a production configuration that does not
      minimise. */
  lemma OverrideCanBreakConsistency(source: Source, entry: EntryMap, target: Target, options: RunOptions)
    ensures var base := BaseConfig(true, source, entry, GetOutput(target, options, true));
            var c := ApplyExtension(base, Overrides(map["optimization" := Obj(map["minimize" := Bool(false)])]), source, target).value;
            !ModeConsistent(c) && Minimize(c) == Some(false) && c["mode"] == Str("production")
  {
    var base := BaseConfig(true, source, entry, GetOutput(target, options, true));
    var overrides := map["optimization" := Obj(map["minimize" := Bool(false)])];
    var c := ApplyExtension(base, Overrides(overrides), source, target).value;
    assert c["optimization"] == Obj(map["minimize" := Bool(false)]);
    assert c["mode"] == base["mode"];
  }

  /** What `generateConfig` returns. */
  datatype Setup = Setup(options: RunOptions, source: Source, target: Target, config: Object)

  /** The part of `generateConfig` after resolution: entry map, output,
      base configuration, and the extension applied last. */
  function Assemble(production: bool, options: RunOptions, source: Source, target: Target): (r: Result<Setup, Thrown>)
    ensures options.name == Some([]) ==> r == Err(Failure("Entry name must be a none empty string"))
    ensures GetEntry(source, options).Err? ==> r == Err(GetEntry(source, options).error)
    ensures GetEntry(source, options).Ok? ==>
              var (entry, source') := GetEntry(source, options).value;
              var applied := ApplyExtension(BaseConfig(production, source', entry, GetOutput(target, options, production)),
                                            options.extend, source', target);
              && (applied.Ok? ==> r == Ok(Setup(options, source', target, applied.value)))
              && (applied.Err? ==> r == Err(applied.error))
    // Only the entry step and an extension function can fail.
    ensures r.Err? && !options.extend.Mutator? ==> GetEntry(source, options).Err?
  {
    match GetEntry(source, options)
    case Err(e) => Err(e)
    case Ok((entry, source')) =>
      var output := GetOutput(target, options, production);
      var base := BaseConfig(production, source', entry, output);
      match ApplyExtension(base, options.extend, source', target)
      case Err(e) => Err(e)
      case Ok(config) => Ok(Setup(options, source', target, config))
  }

  /** A function extension that throws makes the assembly fail with what it
      threw, once the entry step has succeeded. */
  lemma ThrowingExtensionFails(production: bool, options: RunOptions, source: Source, target: Target, thrown: Thrown)
    requires options.extend.Mutator? && GetEntry(source, options).Ok?
    requires forall c, s, t :: options.extend.apply(c, s, t) == Err(thrown)
    ensures Assemble(production, options, source, target) == Err(thrown)
  {
    var (entry, source') := GetEntry(source, options).value;
    var base := BaseConfig(production, source', entry, GetOutput(target, options, production));
    assert ApplyExtension(base, options.extend, source', target) == Err(thrown);
  }

  /** Without an extension the assembled configuration is the base one:
      consistent, in the given mode, rooted at the source root and writing to
      the target. */
  lemma AssembleWithoutExtension(production: bool, options: RunOptions, source: Source, target: Target)
    requires options.extend.NoExtension? || options.extend.OtherValue?
    requires Assemble(production, options, source, target).Ok?
    ensures var c := Assemble(production, options, source, target).value.config;
            && ModeConsistent(c) && c["mode"] == Str(ModeName(production))
            && Minimize(c) == Some(production)
            && "context" in c && c["context"] == Str(source.root)
            && "output" in c && c["output"] == OutputObject(GetOutput(target, options, production))
  {
    var (entry, source') := GetEntry(source, options).value;
    assert source'.root == source.root;
    var base := BaseConfig(production, source', entry, GetOutput(target, options, production));
    assert Assemble(production, options, source, target).value.config == base;
    BaseConfigConsistent(production, source', entry, target, options);
  }

  /** `generateConfig(source, target, options)`, with the host as it is
      afterwards; `production` is the instance's mode. The source is resolved
      first, then the target (which may be created), then the configuration is
      assembled. */
  function GenerateConfig(production: bool, h: Host, sourcePath: Path, targetPath: Path, arg: OptionsArgument)
    : (r: (Result<Setup, Thrown>, Host))
    // A source failure is reported before the target is touched.
    ensures var rs := SourceResolver.ResolveSource(h, sourcePath, ParseOptions(arg));
            rs.Err? ==> r.0 == Err(rs.error) && r.1 == h
    // A target that is not a directory fails and changes nothing.
    ensures var rs := SourceResolver.ResolveSource(h, sourcePath, ParseOptions(arg));
            var rt := TargetResolver.ResolveTarget(h, targetPath);
            rs.Ok? && rt.Err? ==> r.0 == Err(rt.error) && r.1 == h
    // Once both resolved, the target directory exists whatever follows, and
    // the result is the assembly.
    ensures var rs := SourceResolver.ResolveSource(h, sourcePath, ParseOptions(arg));
            var rt := TargetResolver.ResolveTarget(h, targetPath);
            rs.Ok? && rt.Ok? ==>
              && r.1 == rt.value.1
              && IsDir(r.1, h.resolve(targetPath))
              && r.0 == Assemble(production, rs.value.1, rs.value.0, rt.value.0)
    ensures r.0.Ok? ==> SourceResolver.ResolveSource(h, sourcePath, ParseOptions(arg)).Ok?
                        && TargetResolver.ResolveTarget(h, targetPath).Ok?
  {
    var options := ParseOptions(arg);
    match SourceResolver.ResolveSource(h, sourcePath, options)
    case Err(e) => (Err(e), h)
    case Ok((source, options')) =>
      match TargetResolver.ResolveTarget(h, targetPath)
      case Err(e) => (Err(e), h)
      case Ok((target, h')) => (Assemble(production, options', source, target), h')
  }

  /** An empty bundle name fails, but only after the target directory was
      created: a missing target is left behind as a new directory. */
  lemma EmptyNameAfterTargetCreated(production: bool, h: Host, sourcePath: Path, targetPath: Path, options: RunOptions)
    requires options.name == Some([])
    requires SourceResolver.ResolveSource(h, sourcePath, options).Ok?
    requires !Exists(h, h.resolve(targetPath))
    ensures var r := GenerateConfig(production, h, sourcePath, targetPath, PlainObject(options));
            r.0 == Err(Failure("Entry name must be a none empty string"))
            && IsDir(r.1, h.resolve(targetPath))
  {
    var (s, o) := SourceResolver.ResolveSource(h, sourcePath, options).value;
    assert o.name == options.name;
  }
}
