/** The file system and path canonicalisation as the core sees them. Directory
    listings, the regular-expression read filters they apply and the
    root-relative rendering of a path belong to the host and are given as
    oracle functions; existence and kind of a path are data. */
module FileSystem {
  import opened Wrappers

  type Path = string

  datatype Kind = File | Directory

  /** A regular expression, known by its source text only. */
  datatype Pattern = Pattern(source: string)

  /** The `read` option: files matching `exclude` are skipped, only files
      matching `extensions` are taken. */
  datatype ReadFilter = ReadFilter(exclude: Option<Pattern>, extensions: Option<Pattern>)

  /** The filter installed by `index` mode: every script except those whose
      name contains `index` is excluded. */
  const IndexFilter := ReadFilter(Some(Pattern("^(?!.*index).*\\.js$")), Some(Pattern("\\.js")))

  /** The filter installed by the default mode: scripts only. */
  const ScriptFilter := ReadFilter(None, Some(Pattern("\\.js")))

  /** `nodes` holds every existing path and its kind; `resolve` is
      `path.resolve` against the working directory; `files` lists the
      directory itself, `fileList` walks it recursively; `relativeToRoot`
      renders a file relative to a root directory. */
  datatype Host = Host(
    nodes: map<Path, Kind>,
    resolve: Path -> Path,
    files: (Path, ReadFilter) -> seq<Path>,
    fileList: (Path, ReadFilter) -> seq<Path>,
    relativeToRoot: (Path, Path) -> Path)

  predicate Exists(h: Host, p: Path)
  {
    p in h.nodes
  }

  predicate IsDir(h: Host, p: Path)
  {
    p in h.nodes && h.nodes[p] == Directory
  }

  /** Creating a directory: afterwards it exists and is a directory, and no
      other path changed. */
  function MakeDirectory(h: Host, p: Path): (h': Host)
    ensures IsDir(h', p)
    ensures forall q :: q != p ==> (q in h'.nodes <==> q in h.nodes)
    ensures forall q :: q != p && q in h.nodes ==> h'.nodes[q] == h.nodes[q]
    ensures h'.resolve == h.resolve && h'.files == h.files && h'.fileList == h.fileList
    ensures h'.relativeToRoot == h.relativeToRoot
  {
    h.(nodes := h.nodes[p := Directory])
  }
}
