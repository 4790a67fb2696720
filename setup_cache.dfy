/**
 * Bundling from the command line (packages/cli/src/setup-cache.ts): whether the project is bundled
 * at all, and what `bundleOnCli` does with webpack's cache around the bundling. The cache lookups
 * (`cacheExists` before and after bundling), the webpack caching setting, the serve-URL test and
 * the bundle directory are inputs; progress output and timing are left out. What the command does
 * is the sequence of its effects: messages, cache clears and the bundling itself.
 */
module SetupCache {

  /** The answer of `cacheExists` for the current config hash. */
  datatype CacheState = Exists | OtherExists | DoesNotExist

  /** The three messages `bundleOnCli` logs at the `info` level. */
  datatype Message = CacheDisabled | ConfigChanged | CachedBundle

  function MessageText(m: Message): string {
    match m
    case CacheDisabled => "\U{1F9F9} Cache disabled but found. Deleting... "
    case ConfigChanged => "\U{1F9F9} Webpack config change detected. Clearing cache... "
    case CachedBundle => "\U{26A1}\U{FE0F} Cached bundle. Subsequent renders will be faster."
  }

  datatype Effect = Info(message: Message) | ClearCache | Bundle

  /**
   * `bundleOnCli`: a cache found while caching is off is cleared; a cache left by another webpack
   * config is cleared while caching is on; then the project is bundled; and if a cache for this
   * config exists afterwards but did not before, the user is told the bundle was cached.
   */
  function BundleOnCli(shouldCache: bool, before: CacheState, existsAfter: bool): (effects: seq<Effect>)
    ensures effects != []
  {
    (if before != DoesNotExist && !shouldCache then [Info(CacheDisabled), ClearCache] else []) +
    (if before == OtherExists && shouldCache then [Info(ConfigChanged), ClearCache] else []) +
    [Bundle] +
    (if existsAfter && (before == DoesNotExist || before == OtherExists) then [Info(CachedBundle)] else [])
  }

  /** The effects of one run, case by case: at most one clear, then the bundling, then at most one message. */
  lemma {:induction false} BundleOnCliCases(shouldCache: bool, before: CacheState, existsAfter: bool)
    ensures var effects := BundleOnCli(shouldCache, before, existsAfter);
      var tail := if existsAfter && before != Exists then [Info(CachedBundle)] else [];
      effects == if before == DoesNotExist then [Bundle] + tail
                 else if shouldCache && before == OtherExists then [Info(ConfigChanged), ClearCache, Bundle] + tail
                 else if shouldCache then [Bundle]
                 else [Info(CacheDisabled), ClearCache, Bundle] + tail
  {
    var tail := if existsAfter && before != Exists then [Info(CachedBundle)] else [];
    if before == DoesNotExist {
      assert [] + [] + [Bundle] + tail == [Bundle] + tail;
    } else if shouldCache && before == OtherExists {
      assert [] + [Info(ConfigChanged), ClearCache] + [Bundle] + tail == [Info(ConfigChanged), ClearCache, Bundle] + tail;
    } else if shouldCache {
      assert [] + [] + [Bundle] + [] == [Bundle];
    } else {
      assert [Info(CacheDisabled), ClearCache] + [] + [Bundle] + tail == [Info(CacheDisabled), ClearCache, Bundle] + tail;
    }
  }

  /**
   * The two clearing conditions need opposite caching settings, so the cache is cleared at most
   * once, exactly when a cache is stale for the setting in force; the project is bundled once;
   * the cached-bundle message appears exactly when this config's cache is new.
   */
  lemma ClearsAtMostOnce(shouldCache: bool, before: CacheState, existsAfter: bool)
    ensures var effects := BundleOnCli(shouldCache, before, existsAfter);
      AtMostOnce(effects, ClearCache) && AtMostOnce(effects, Bundle) &&
      Bundle in effects &&
      (ClearCache in effects <==> (before != DoesNotExist && !shouldCache) || (before == OtherExists && shouldCache)) &&
      (Info(CacheDisabled) in effects <==> before != DoesNotExist && !shouldCache) &&
      (Info(ConfigChanged) in effects <==> before == OtherExists && shouldCache) &&
      (Info(CachedBundle) in effects <==> existsAfter && before != Exists)
  {
    OnceEach(shouldCache, before, existsAfter);
    WhichEffects(shouldCache, before, existsAfter);
  }

  /** Whether `e` occurs at most once in `effects`. */
  predicate AtMostOnce(effects: seq<Effect>, e: Effect) {
    forall i, j :: 0 <= i < |effects| && 0 <= j < |effects| && effects[i] == e && effects[j] == e ==> i == j
  }

  lemma OnceEach(shouldCache: bool, before: CacheState, existsAfter: bool)
    ensures var effects := BundleOnCli(shouldCache, before, existsAfter);
      AtMostOnce(effects, ClearCache) && AtMostOnce(effects, Bundle)
  {
    BundleOnCliCases(shouldCache, before, existsAfter);
  }

  lemma WhichEffects(shouldCache: bool, before: CacheState, existsAfter: bool)
    ensures var effects := BundleOnCli(shouldCache, before, existsAfter);
      Bundle in effects &&
      (ClearCache in effects <==> (before != DoesNotExist && !shouldCache) || (before == OtherExists && shouldCache)) &&
      (Info(CacheDisabled) in effects <==> before != DoesNotExist && !shouldCache) &&
      (Info(ConfigChanged) in effects <==> before == OtherExists && shouldCache) &&
      (Info(CachedBundle) in effects <==> existsAfter && before != Exists)
  {
    BundleOnCliCases(shouldCache, before, existsAfter);
  }

  /** Every clear happens before the bundling, and the cached-bundle message after it. */
  lemma ClearsBeforeBundling(shouldCache: bool, before: CacheState, existsAfter: bool)
    ensures var effects := BundleOnCli(shouldCache, before, existsAfter);
      forall i, j :: 0 <= i < |effects| && 0 <= j < |effects| && effects[j] == Bundle ==>
        (effects[i] == ClearCache ==> i < j) && (effects[i] == Info(CachedBundle) ==> j < i)
  {
    BundleOnCliCases(shouldCache, before, existsAfter);
  }

  /** What the caller is told to delete when it is done. */
  datatype Cleanup = Nothing | DeleteDirectory(directory: string)

  datatype Prepared = Prepared(urlOrBundle: string, cleanup: Cleanup, effects: seq<Effect>)

  /**
   * `bundleOnCliOrTakeServeUrl`: a serve URL is used as it is, with nothing to clean up and no
   * bundling; anything else is bundled, and the bundle directory is deleted on cleanup.
   */
  function BundleOnCliOrTakeServeUrl(fullPath: string, isServeUrl: bool, shouldCache: bool, before: CacheState,
                                     existsAfter: bool, bundled: string): (r: Prepared)
    ensures isServeUrl ==> r == Prepared(fullPath, Nothing, [])
    ensures !isServeUrl ==> r.urlOrBundle == bundled && r.cleanup == DeleteDirectory(bundled)
    ensures Bundle in r.effects <==> !isServeUrl
  {
    ClearsAtMostOnce(shouldCache, before, existsAfter);
    if isServeUrl then Prepared(fullPath, Nothing, [])
    else
      Prepared(bundled, DeleteDirectory(bundled), BundleOnCli(shouldCache, before, existsAfter))
  }
}
