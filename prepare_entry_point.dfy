/**
 * `prepareEntryPoint` (packages/cli/src/prepare-entry-point.ts): what the command line renders
 * from. A serve URL and an existing directory (an already bundled project) are used as they are; a
 * file is bundled, which adds a `bundling` step and leaves a directory to delete afterwards; a
 * path that does not exist ends the process. The serve-URL test, the resolved path, the answer of
 * `stat` and the directory the bundler produces are inputs.
 */
module PrepareEntryPoint {

  import opened Wrappers
  import SetupCache

  const MissingPathPrefix := "No file or directory exists at "

  /** What `stat` says about the resolved path: it fails, or it is a directory, or something else. */
  datatype PathKind = Missing | Directory | File

  const BundlingStep := "bundling"

  datatype Entry = Entry(urlOrBundle: string, steps: seq<string>, shouldDelete: bool)

  function MissingError(resolved: string): string {
    MissingPathPrefix + resolved + "."
  }

  function Prepare(file: string, otherSteps: seq<string>, isServeUrl: bool, resolved: string, kind: PathKind,
                   bundled: string): (r: Result<Entry>)
    ensures isServeUrl ==> r == Ok(Entry(file, otherSteps, false))
    ensures !isServeUrl ==> (r.Err? <==> kind == Missing)
    ensures !isServeUrl && kind == Missing ==> r.error == MissingError(resolved)
    ensures !isServeUrl && kind == Directory ==> r == Ok(Entry(resolved, otherSteps, false))
    ensures !isServeUrl && kind == File ==> r == Ok(Entry(bundled, [BundlingStep] + otherSteps, true))
  {
    if isServeUrl then Ok(Entry(file, otherSteps, false))
    else
      match kind
      case Missing => Err(MissingError(resolved))
      case Directory => Ok(Entry(resolved, otherSteps, false))
      case File => Ok(Entry(bundled, [BundlingStep] + otherSteps, true))
  }

  /**
   * `shouldDelete` is set exactly when a bundle was produced, which is exactly when a `bundling`
   * step was put in front of the other steps; otherwise the steps are passed on unchanged.
   */
  lemma ShouldDeleteIffBundled(file: string, otherSteps: seq<string>, isServeUrl: bool, resolved: string,
                               kind: PathKind, bundled: string)
    requires Prepare(file, otherSteps, isServeUrl, resolved, kind, bundled).Ok?
    ensures var e := Prepare(file, otherSteps, isServeUrl, resolved, kind, bundled).value;
      (e.shouldDelete <==> !isServeUrl && kind == File) &&
      (e.shouldDelete <==> e.steps == [BundlingStep] + otherSteps) &&
      (!e.shouldDelete <==> e.steps == otherSteps) &&
      (e.shouldDelete ==> e.urlOrBundle == bundled)
  {
    var e := Prepare(file, otherSteps, isServeUrl, resolved, kind, bundled).value;
    assert |[BundlingStep] + otherSteps| != |otherSteps|;
  }

  /**
   * For a serve URL or a file, preparing the entry point agrees with `bundleOnCliOrTakeServeUrl`:
   * the same thing is rendered from, and it is deleted afterwards exactly when that function's
   * cleanup deletes a directory.
   */
  lemma AgreesWithBundleOrServeUrl(file: string, otherSteps: seq<string>, isServeUrl: bool, resolved: string,
                                   kind: PathKind, bundled: string, shouldCache: bool,
                                   before: SetupCache.CacheState, existsAfter: bool)
    requires isServeUrl || kind == File
    ensures var e := Prepare(file, otherSteps, isServeUrl, resolved, kind, bundled);
      var p := SetupCache.BundleOnCliOrTakeServeUrl(if isServeUrl then file else resolved, isServeUrl,
                                                    shouldCache, before, existsAfter, bundled);
      e.Ok? && e.value.urlOrBundle == p.urlOrBundle &&
      (e.value.shouldDelete <==> p.cleanup.DeleteDirectory?) &&
      (e.value.shouldDelete ==> p.cleanup.directory == e.value.urlOrBundle)
  {
  }
}
