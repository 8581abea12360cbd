/** `_resolveSource`: a source path becomes a root plus the list of
    root-relative `./` files to bundle, under one of three read modes. */
module SourceResolver {
  import opened Wrappers
  import opened FileSystem
  import opened ErrorReporter
  import opened Descriptors
  import Paths

  datatype ReadMode = DirectoryMode | IndexMode | RecursiveMode

  /** Only the exact strings `index` and `recursive` select a mode; any other
      value of the `source` option reads the directory itself. */
  function ReadModeOf(options: RunOptions): (m: ReadMode)
    ensures m.IndexMode? <==> options.source == Some("index")
    ensures m.RecursiveMode? <==> options.source == Some("recursive")
  {
    if options.source == Some("index") then IndexMode
    else if options.source == Some("recursive") then RecursiveMode
    else DirectoryMode
  }

  /** The filter a directory is read with: the caller's own if given, else the
      mode's default; recursive mode has no default. */
  function EffectiveFilter(options: RunOptions): (f: Option<ReadFilter>)
    ensures options.read.Some? ==> f == options.read
    ensures options.read.None? && ReadModeOf(options).IndexMode? ==> f == Some(IndexFilter)
    ensures options.read.None? && ReadModeOf(options).DirectoryMode? ==> f == Some(ScriptFilter)
    ensures f.None? <==> options.read.None? && ReadModeOf(options).RecursiveMode?
  {
    if options.read.Some? then options.read
    else
      match ReadModeOf(options)
      case IndexMode => Some(IndexFilter)
      case DirectoryMode => Some(ScriptFilter)
      case RecursiveMode => None
  }

  /** The directory listing: `index` and `recursive` walk the tree
      (`fileList`), the default mode lists the directory (`files`). */
  function Listing(h: Host, dir: Path, mode: ReadMode, filter: ReadFilter): seq<Path>
  {
    if mode.DirectoryMode? then h.files(dir, filter) else h.fileList(dir, filter)
  }

  predicate IsDotRelative(p: Path)
  {
    |p| >= 2 && p[..2] == "./"
  }

  /** Every file as `./` followed by its path relative to the root, in order. */
  function RootRelative(h: Host, files: seq<Path>, root: Path): (r: seq<Path>)
    ensures |r| == |files|
    ensures forall i :: 0 <= i < |files| ==> r[i] == "./" + h.relativeToRoot(files[i], root)
    ensures forall i :: 0 <= i < |files| ==> IsDotRelative(r[i])
  {
    seq(|files|, i requires 0 <= i < |files| => "./" + h.relativeToRoot(files[i], root))
  }

  /** `_resolveSource(source, options)`. On success it yields the source record
      and the options with the effective read filter installed. */
  function ResolveSource(h: Host, source: Path, options: RunOptions): (r: Result<(Source, RunOptions), Thrown>)
    // A path that does not exist always fails.
    ensures !Exists(h, h.resolve(source)) ==> r == Err(Failure("Source not found: " + h.resolve(source)))
    // Recursive mode on a directory needs a caller filter.
    ensures Exists(h, h.resolve(source)) && IsDir(h, h.resolve(source)) && EffectiveFilter(options).None?
            ==> r == Err(Failure("Source mode recursive requires a read filter"))
    // A directory with nothing to read fails.
    ensures Exists(h, h.resolve(source)) && IsDir(h, h.resolve(source)) && EffectiveFilter(options).Some?
            && |Listing(h, h.resolve(source), ReadModeOf(options), EffectiveFilter(options).value)| == 0
            ==> r == Err(Failure("Source is empty: " + h.resolve(source)))
    // Every success has a non-empty list of `./` files and keeps the given path.
    ensures r.Ok? ==> var (s, o) := r.value;
              && s.source == source && s.resolved == h.resolve(source)
              && |s.files| >= 1
              && forall i :: 0 <= i < |s.files| ==> IsDotRelative(s.files[i])
    // A directory is its own root; its files are the listing, in order, under the installed filter.
    ensures r.Ok? && IsDir(h, h.resolve(source)) ==> var (s, o) := r.value;
              && EffectiveFilter(options).Some?
              && o == options.(read := EffectiveFilter(options))
              && s.root == s.resolved
              && s.files == RootRelative(h, Listing(h, s.root, ReadModeOf(options), o.read.value), s.root)
    // A file source is its own single file under its parent directory.
    ensures r.Ok? && !IsDir(h, h.resolve(source)) ==> var (s, o) := r.value;
              && o == options
              && s.root == Paths.Dirname(s.resolved)
              && s.files == ["./" + h.relativeToRoot(s.resolved, s.root)]
    // The only failures are the three above.
    ensures r.Err? <==> !Exists(h, h.resolve(source))
                        || (IsDir(h, h.resolve(source))
                            && (EffectiveFilter(options).None?
                                || |Listing(h, h.resolve(source), ReadModeOf(options), EffectiveFilter(options).value)| == 0))
  {
    var resolved := h.resolve(source);
    if !Exists(h, resolved) then
      Err(Failure("Source not found: " + resolved))
    else if IsDir(h, resolved) then
      match EffectiveFilter(options)
      case None => Err(Failure("Source mode recursive requires a read filter"))
      case Some(filter) =>
        var listed := Listing(h, resolved, ReadModeOf(options), filter);
        if |listed| == 0 then Err(Failure("Source is empty: " + resolved))
        else Ok((Source(resolved, source, resolved, RootRelative(h, listed, resolved)), options.(read := Some(filter))))
    else
      var root := Paths.Dirname(resolved);
      Ok((Source(root, source, resolved, RootRelative(h, [resolved], root)), options))
  }

  /** Resolving again with the options a resolution returned gives the same
      source and leaves the options as they are: the installed filter is the
      one that was used. */
  lemma ResolveSourceStable(h: Host, source: Path, options: RunOptions)
    requires ResolveSource(h, source, options).Ok?
    ensures var (s, o) := ResolveSource(h, source, options).value;
            ResolveSource(h, source, o).Ok? && ResolveSource(h, source, o).value == (s, o)
  {
    var (s, o) := ResolveSource(h, source, options).value;
    assert ReadModeOf(o) == ReadModeOf(options);
    if IsDir(h, h.resolve(source)) {
      assert EffectiveFilter(o) == EffectiveFilter(options);
    }
  }
}
