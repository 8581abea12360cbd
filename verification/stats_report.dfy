/** `generateStats`: the report shown with `--stats`: an overview, the asset
    details unless they were already printed, and the warnings unless they
    were already printed. */
module StatsReport {
  import opened Wrappers
  import opened ErrorReporter
  import opened Engine
  import opened FileStats
  import Warnings

  /** The `Files` line: the number of sources, and the number of outputs when
      it differs. */
  datatype FilesLine = FilesLine(sources: nat, outputs: Option<nat>)

  /** `Build` (the hash), `Files`, `Time` (the run) and `Webpack` (the engine's
      compile time), in milliseconds. */
  datatype Overview = Overview(build: string, files: FilesLine, time: nat, webpackTime: nat)

  /** A row of `Asset output details`: one asset line, or the trailing empty row. */
  datatype DetailRow = AssetRow(parts: seq<Part>) | Spacer

  datatype Report = Report(overview: Overview, details: Option<seq<DetailRow>>, warnings: Option<string>)

  /** What pushing onto the details list that was never created throws. */
  const MissingDetails := Thrown.Error(TypeError, "Cannot read properties of undefined (reading 'push')", None)

  /** One row per asset, in order, then the empty spacer row. */
  function DetailRows(showStats: bool, marks: Marks, assets: seq<Asset>): (d: seq<DetailRow>)
    ensures |d| == |assets| + 1 && d[|d| - 1] == Spacer
    ensures forall i :: 0 <= i < |assets| ==> d[i] == AssetRow(GetFileStats(showStats, marks, assets[i]))
  {
    seq(|assets|, i requires 0 <= i < |assets| => AssetRow(GetFileStats(showStats, marks, assets[i]))) + [Spacer]
  }

  /** `generateStats(options, swp, stats, getFileStats)`: `verbose` and
      `showStats` are the command line's flags, `inst` the instance, `time`
      the run's measured time and `stats` the compile's stats. */
  function GenerateStats(verbose: bool, showStats: bool, marks: Marks, inst: Instance, time: nat, stats: Stats)
    : (r: Result<Report, Thrown>)
    // The details list is only created inside the loop over the assets, so with no asset the trailing push throws.
    ensures r.Err? <==> !verbose && |stats.json.assets| == 0
    ensures r.Err? ==> r.error == MissingDetails
    ensures r.Ok? ==> var o := r.value.overview;
              && o.build == stats.json.hash && o.time == time && o.webpackTime == stats.json.time
              && o.files.sources == |stats.json.entrypoints|
              && (o.files.outputs.Some? <==> |stats.json.entrypoints| != |stats.json.assets|)
              && (o.files.outputs.Some? ==> o.files.outputs.value == |stats.json.assets|)
    // The details are there exactly when not verbose: one row per asset, in order, then an empty row.
    ensures r.Ok? ==> (r.value.details.Some? <==> !verbose)
    ensures r.Ok? && r.value.details.Some? ==> var d := r.value.details.value;
              && |d| == |stats.json.assets| + 1
              && d[|d| - 1] == Spacer
              && forall i :: 0 <= i < |stats.json.assets| ==>
                   d[i] == AssetRow(GetFileStats(showStats, marks, stats.json.assets[i]))
    // Warnings appear only in a loose, quiet run that has some.
    ensures r.Ok? ==> (r.value.warnings.Some? <==> !inst.verbose && !inst.strict && stats.hasWarnings)
    ensures r.Ok? && r.value.warnings.Some? ==> r.value.warnings.value == Warnings.WithoutHeading(stats.warningsDump)
  {
    var info := stats.json;
    var sources := |info.entrypoints|;
    var files := FilesLine(sources, if sources != |info.assets| then Some(|info.assets|) else None);
    var overview := Overview(info.hash, files, time, info.time);
    var warnings :=
      if !inst.verbose && !inst.strict && stats.hasWarnings then Some(Warnings.WithoutHeading(stats.warningsDump))
      else None;
    if verbose then Ok(Report(overview, None, warnings))
    else if |info.assets| == 0 then Err(MissingDetails)
    else
      Ok(Report(overview, Some(DetailRows(showStats, marks, info.assets)), warnings))
  }
}
