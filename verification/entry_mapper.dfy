/** `_getEntry`: the webpack entry map, either one combined bundle or one
    entry per source file. */
module EntryMapper {
  import opened Wrappers
  import opened FileSystem
  import opened ErrorReporter
  import opened Descriptors
  import Paths

  /** The value of one entry: a single file, or an ordered list of files. */
  datatype EntryValue = One(file: Path) | Many(files: seq<Path>)

  /** Entry names to entry values. In individual mode a file's entry is named
      `Paths.EntryName(file)`: `path.basename(file, path.extname(file))`. */
  type EntryMap = map<string, EntryValue>

  /** The loop over the files that names each entry with `nameOf` (the base
      name without extension, see `EntryMap`); a later file with a name
      already taken replaces the earlier one. */
  function IndividualEntries(files: seq<Path>, nameOf: Path -> string): (m: EntryMap)
    ensures |m| <= |files|
    ensures forall k :: k in m ==> m[k].One?
    decreases |files|
  {
    if |files| == 0 then map[]
    else
      var m := IndividualEntries(files[..|files| - 1], nameOf);
      var file := files[|files| - 1];
      assert m[nameOf(file) := One(file)].Keys == m.Keys + {nameOf(file)};
      m[nameOf(file) := One(file)]
  }

  /** The file at position `j` is the last of `files` named `name`. */
  ghost predicate LastNamed(files: seq<Path>, nameOf: Path -> string, name: string, j: int)
  {
    && 0 <= j < |files|
    && nameOf(files[j]) == name
    && forall j' :: j < j' < |files| ==> nameOf(files[j']) != name
  }

  /** The keys are exactly the names of the files. */
  lemma {:induction false} IndividualEntriesKeys(files: seq<Path>, nameOf: Path -> string, name: string)
    ensures name in IndividualEntries(files, nameOf) <==> exists i :: 0 <= i < |files| && nameOf(files[i]) == name
    decreases |files|
  {
    if |files| > 0 {
      var init := files[..|files| - 1];
      var last := files[|files| - 1];
      IndividualEntriesKeys(init, nameOf, name);
      if name != nameOf(last) {
        if name in IndividualEntries(init, nameOf) {
          var i :| 0 <= i < |init| && nameOf(init[i]) == name;
          assert files[i] == init[i];
        }
        if exists i :: 0 <= i < |files| && nameOf(files[i]) == name {
          var i :| 0 <= i < |files| && nameOf(files[i]) == name;
          assert i < |init| && init[i] == files[i];
        }
      }
    }
  }

  /** Each key maps to the last file carrying that name. */
  lemma {:induction false} IndividualEntriesLastWins(files: seq<Path>, nameOf: Path -> string, name: string, j: int)
    requires LastNamed(files, nameOf, name, j)
    ensures name in IndividualEntries(files, nameOf) && IndividualEntries(files, nameOf)[name] == One(files[j])
    decreases |files|
  {
    if j < |files| - 1 {
      var init := files[..|files| - 1];
      assert init[j] == files[j];
      assert LastNamed(init, nameOf, name, j);
      IndividualEntriesLastWins(init, nameOf, name, j);
    }
  }

  /** When no two files share a name, every file keeps its own entry. */
  lemma DistinctNamesKeepEveryFile(files: seq<Path>, nameOf: Path -> string, i: int)
    requires forall a, b :: 0 <= a < b < |files| ==> nameOf(files[a]) != nameOf(files[b])
    requires 0 <= i < |files|
    ensures nameOf(files[i]) in IndividualEntries(files, nameOf)
    ensures IndividualEntries(files, nameOf)[nameOf(files[i])] == One(files[i])
  {
    assert LastNamed(files, nameOf, nameOf(files[i]), i);
    IndividualEntriesLastWins(files, nameOf, nameOf(files[i]), i);
  }

  /** The files of a combined bundle: the `prepend` array (when it is an array)
      in front of the discovered files. */
  function CombinedFiles(source: Source, options: RunOptions): (files: seq<Path>)
    ensures options.prepend.Some? ==> files == options.prepend.value + source.files
    ensures options.prepend.None? ==> files == source.files
  {
    (if options.prepend.Some? then options.prepend.value else []) + source.files
  }

  /** `_getEntry(source, options)`, with the source as it is after the call
      (combined mode prepends to its file list in place). */
  function GetEntry(source: Source, options: RunOptions): (r: Result<(EntryMap, Source), Thrown>)
    // Combined mode: an empty name fails, otherwise one entry holding prepend ++ files, which the source now lists.
    ensures options.name == Some([]) ==> r == Err(Failure("Entry name must be a none empty string"))
    ensures options.name.Some? && options.name.value != [] ==>
              && r.Ok?
              && r.value.0.Keys == {options.name.value}
              && r.value.0[options.name.value] == Many(CombinedFiles(source, options))
              && r.value.1 == source.(files := CombinedFiles(source, options))
    // Individual mode: one entry per distinct file name, the source untouched; prepend is ignored.
    ensures options.name.None? ==> r.Ok? && r.value.0 == IndividualEntries(source.files, Paths.EntryName) && r.value.1 == source
  {
    match options.name
    case Some(name) =>
      if |name| == 0 then Err(Failure("Entry name must be a none empty string"))
      else
        var files := CombinedFiles(source, options);
        Ok((map[name := Many(files)], source.(files := files)))
    case None =>
      Ok((IndividualEntries(source.files, Paths.EntryName), source))
  }
}
