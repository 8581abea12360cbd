/** The records the core passes between its stages: run options, the resolved
    source and target, and the configuration extension. */
module Descriptors {
  import opened Wrappers
  import opened FileSystem
  import opened JsObjects
  import opened ErrorReporter

  /** The resolved source: the context root, the path as given, its canonical
      form and the root-relative `./` files. */
  datatype Source = Source(root: Path, source: Path, resolved: Path, files: seq<Path>)

  /** The resolved target: the path as given, its canonical form, whether it
      exists (the source's `exists`), and whether this run created it (the
      source's `null` reads false). */
  datatype Target = Target(target: Path, resolved: Path, present: bool, created: bool)

  /** The `extend` option: a function that changes the configuration in place
      (modelled as returning the changed configuration, or the value it threw),
      a plain object merged over it, nothing, or a value of any other shape,
      which is ignored. */
  datatype Extension =
    | NoExtension
    | Mutator(apply: (Object, Source, Target) -> Result<Object, Thrown>)
    | Overrides(fields: Object)
    | OtherValue

  /** Run options. `source` is the read mode, `name` a string when bundling into
      one entry, `prepend` an array when present; `devtool`, `minify` and
      `keepnames` are set by the command line but read by nothing in the core. */
  datatype RunOptions = RunOptions(
    source: Option<string>,
    name: Option<string>,
    read: Option<ReadFilter>,
    public: Option<string>,
    extend: Extension,
    prepend: Option<seq<string>>,
    devtool: Option<string>,
    minify: Option<bool>,
    keepnames: Option<bool>)

  const EmptyOptions := RunOptions(None, None, None, None, NoExtension, None, None, None, None)

  /** The options argument of `run` and `generateConfig`. */
  datatype OptionsArgument = PlainObject(options: RunOptions) | NotPlainObject

  /** `_parseOptions`: a plain object is used as is, anything else (including
      `null`) counts as no options at all. */
  function ParseOptions(arg: OptionsArgument): (r: RunOptions)
    ensures arg.PlainObject? ==> r == arg.options
    ensures arg.NotPlainObject? ==> r.name.None? && r.read.None? && r.source.None?
                                    && r.public.None? && r.extend.NoExtension? && r.prepend.None?
  {
    match arg
    case PlainObject(options) => options
    case NotPlainObject => EmptyOptions
  }

  /** Parsed options are a plain object, and parsing them again keeps them. */
  lemma ParseOptionsIdempotent(arg: OptionsArgument)
    ensures ParseOptions(PlainObject(ParseOptions(arg))) == ParseOptions(arg)
  {
  }
}
