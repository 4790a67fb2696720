/**
 * `ensureBrowser` (packages/renderer/src/ensure-browser.ts): which browser a render would use, the
 * download when there is none, the defaults of the public entry point, and the promise chain that
 * runs the operations one after another. The file system, `getLocalBrowser`, `getRevisionInfo`
 * and `downloadBrowser` are not part of this model: they are the `Machine` and a parameter.
 */
module EnsureBrowser {

  import opened Wrappers

  /** `getRevisionInfo()`: whether the pinned revision is installed and where its executable is. */
  datatype Revision = Revision(local: bool, executablePath: string)

  /** What the status depends on: existing paths, the local browser found, the pinned revision. */
  datatype Machine = Machine(files: set<string>, localBrowser: Option<string>, revision: Revision)

  datatype BrowserStatus =
    | UserDefinedPath(path: string)
    | LocalBrowser(path: string)
    | LocalPuppeteerBrowser(path: string)
    | NoBrowser

  const MissingExecutableBefore := "\"browserExecutable\" was specified as '"
  const MissingExecutableAfter :=
    "' but the path doesn't exist. Pass \"null\" for \"browserExecutable\" to download a browser automatically."

  function MissingExecutableMessage(path: string): string {
    MissingExecutableBefore + path + MissingExecutableAfter
  }

  /**
   * `getBrowserStatus`: a given executable wins, and must exist; then a local browser; then the
   * pinned revision if it is installed and its executable exists; otherwise there is none.
   */
  function GetBrowserStatus(browserExecutable: Option<string>, m: Machine): (r: Result<BrowserStatus>)
    ensures browserExecutable.Some? && browserExecutable.value != "" ==>
      (browserExecutable.value in m.files ==> r == Ok(UserDefinedPath(browserExecutable.value))) &&
      (browserExecutable.value !in m.files ==> r == Err(MissingExecutableMessage(browserExecutable.value)))
  {
    if browserExecutable.Some? && browserExecutable.value != "" then
      if browserExecutable.value !in m.files then Err(MissingExecutableMessage(browserExecutable.value))
      else Ok(UserDefinedPath(browserExecutable.value))
    else if m.localBrowser.Some? then Ok(LocalBrowser(m.localBrowser.value))
    else if m.revision.local && m.revision.executablePath in m.files then
      Ok(LocalPuppeteerBrowser(m.revision.executablePath))
    else Ok(NoBrowser)
  }

  /**
   * The precedence: user-defined path over local browser over the pinned revision over none; each
   * kind is chosen exactly when every kind above it is unavailable and it is available.
   */
  lemma StatusPrecedence(browserExecutable: Option<string>, m: Machine)
    ensures var given := browserExecutable.Some? && browserExecutable.value != "";
      var r := GetBrowserStatus(browserExecutable, m);
      var puppeteer := m.revision.local && m.revision.executablePath in m.files;
      (r.Err? <==> given && browserExecutable.value !in m.files) &&
      (r.Ok? && r.value.UserDefinedPath? <==> given && browserExecutable.value in m.files) &&
      (r.Ok? && r.value.LocalBrowser? <==> !given && m.localBrowser.Some?) &&
      (r.Ok? && r.value.LocalPuppeteerBrowser? <==> !given && m.localBrowser.None? && puppeteer) &&
      (r.Ok? && r.value.NoBrowser? <==> !given && m.localBrowser.None? && !puppeteer)
  {
  }

  /** The puppeteer browser is never reported unless its revision is local and its executable exists. */
  lemma PuppeteerNeedsInstalledRevision(browserExecutable: Option<string>, m: Machine)
    requires GetBrowserStatus(browserExecutable, m) == Ok(LocalPuppeteerBrowser(m.revision.executablePath))
    ensures m.revision.local && m.revision.executablePath in m.files
  {
  }

  /** Who reports download progress: the caller's `onBrowserDownload`, or the default progress bar. */
  datatype DownloadCallback =
    | Custom(version: Option<string>)
    | DefaultProgress(api: string, indent: bool, logLevel: string)

  /** `InternalEnsureBrowserOptions`. */
  datatype InternalOptions = InternalOptions(
    browserExecutable: Option<string>, indent: bool, logLevel: string, onBrowserDownload: DownloadCallback)

  /** What `downloadBrowser` is called with. */
  datatype DownloadRequest = DownloadRequest(indent: bool, logLevel: string, callback: DownloadCallback)

  /** One operation's outcome and the downloads it started. */
  datatype Ensured = Ensured(status: Result<BrowserStatus>, machine: Machine, downloads: seq<DownloadRequest>)

  /**
   * `internalEnsureBrowserUncapped`: a download starts only when there is no browser, and the status
   * is evaluated again afterwards. An error in either evaluation, or in the download, is the outcome.
   */
  function Uncapped(o: InternalOptions, m: Machine, download: (DownloadRequest, Machine) -> Result<Machine>): (r: Ensured)
    ensures var before := GetBrowserStatus(o.browserExecutable, m);
      (before.Err? ==> r == Ensured(before, m, [])) &&
      (before.Ok? && !before.value.NoBrowser? ==> r == Ensured(before, m, [])) &&
      (before == Ok(NoBrowser) ==>
         r.downloads == [DownloadRequest(o.indent, o.logLevel, o.onBrowserDownload)] &&
         var d := download(r.downloads[0], m);
         (d.Err? ==> r.status == Err(d.error) && r.machine == m) &&
         (d.Ok? ==> r.machine == d.value && r.status == GetBrowserStatus(o.browserExecutable, d.value)))
  {
    var before := GetBrowserStatus(o.browserExecutable, m);
    if before.Err? then Ensured(before, m, [])
    else if !before.value.NoBrowser? then
      Ensured(GetBrowserStatus(o.browserExecutable, m), m, [])
    else
      var request := DownloadRequest(o.indent, o.logLevel, o.onBrowserDownload);
      match download(request, m)
      case Err(e) => Ensured(Err(e), m, [request])
      case Ok(after) => Ensured(GetBrowserStatus(o.browserExecutable, after), after, [request])
  }

  /** A download is started exactly when the first evaluation found no browser. */
  lemma DownloadOnlyWithoutBrowser(o: InternalOptions, m: Machine, download: (DownloadRequest, Machine) -> Result<Machine>)
    ensures |Uncapped(o, m, download).downloads| <= 1
    ensures |Uncapped(o, m, download).downloads| == 1 <==> GetBrowserStatus(o.browserExecutable, m) == Ok(NoBrowser)
  {
  }

  /** `EnsureBrowserOptions`: everything optional. */
  datatype EnsureBrowserOptions = EnsureBrowserOptions(
    browserExecutable: Option<string>, logLevel: Option<string>, onBrowserDownload: Option<Option<string>>)

  /**
   * `ensureBrowser`'s defaults: no executable, log level 'info', no indent, and the default progress
   * bar for the `ensureBrowser()` API when no download callback is given.
   */
  function Defaults(options: Option<EnsureBrowserOptions>): (r: InternalOptions)
    ensures !r.indent
    ensures options.None? ==>
      r == InternalOptions(None, false, "info", DefaultProgress("ensureBrowser()", false, "info"))
    ensures options.Some? ==>
      r.browserExecutable == options.value.browserExecutable &&
      r.logLevel == OptionOr(options.value.logLevel, "info") &&
      (options.value.onBrowserDownload.Some? ==> r.onBrowserDownload == Custom(options.value.onBrowserDownload.value)) &&
      (options.value.onBrowserDownload.None? ==> r.onBrowserDownload == DefaultProgress("ensureBrowser()", false, r.logLevel))
  {
    var logLevel := if options.Some? then OptionOr(options.value.logLevel, "info") else "info";
    var executable := if options.Some? then options.value.browserExecutable else None;
    var callback :=
      if options.Some? && options.value.onBrowserDownload.Some? then Custom(options.value.onBrowserDownload.value)
      else DefaultProgress("ensureBrowser()", false, logLevel);
    InternalOptions(executable, false, logLevel, callback)
  }

  /**
   * `currentEnsureBrowserOperation`: every call is chained after the previous one with `.then`
   * and no handler for rejections, so the operations run one after another, and once one has
   * failed every later call fails with that same error without running.
   */
  class EnsureQueue {
    const download: (DownloadRequest, Machine) -> Result<Machine>
    var machine: Machine
    var failed: Option<string>
    var downloads: seq<DownloadRequest>
    var ran: seq<InternalOptions>

    constructor (m: Machine, download: (DownloadRequest, Machine) -> Result<Machine>)
      ensures this.download == download && machine == m && failed.None? && downloads == [] && ran == []
    {
      this.download := download;
      machine := m;
      failed := None;
      downloads := [];
      ran := [];
    }

    method InternalEnsureBrowser(o: InternalOptions) returns (r: Result<BrowserStatus>)
      modifies this
      ensures old(failed).Some? ==>
        r == Err(old(failed).value) && machine == old(machine) && failed == old(failed) &&
        downloads == old(downloads) && ran == old(ran)
      ensures old(failed).None? ==>
        var e := Uncapped(o, old(machine), download);
        r == e.status && machine == e.machine && downloads == old(downloads) + e.downloads &&
        ran == old(ran) + [o] && (failed.Some? <==> r.Err?) && (r.Err? ==> failed == Some(r.error))
    {
      if failed.Some? {
        r := Err(failed.value);
        return;
      }
      var e := Uncapped(o, machine, download);
      ran := ran + [o];
      machine := e.machine;
      downloads := downloads + e.downloads;
      r := e.status;
      if r.Err? {
        failed := Some(r.error);
      }
    }

    method Ensure(options: Option<EnsureBrowserOptions>) returns (r: Result<BrowserStatus>)
      modifies this
      ensures old(failed).Some? ==> r == Err(old(failed).value) && ran == old(ran)
      ensures old(failed).None? ==>
        ran == old(ran) + [Defaults(options)] && r == Uncapped(Defaults(options), old(machine), download).status
    {
      r := InternalEnsureBrowser(Defaults(options));
    }
  }
}
