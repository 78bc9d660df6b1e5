/**
 * The issuer cache service (app/features/issuerCaching/services/issuerCachingService.ts):
 * the `Cache` the issuer resolver reads and writes, and the debounced refresh of the
 * trusted issuers.
 *
 * The cache the app builds is always backed by the issuer caching store, so `set` and the
 * refresh act on an `IssuerCaching` object. The issuer resolver of the verifier library is
 * the oracle `resolve`: the document it fetches for an issuer, or nothing when resolution
 * fails (such failures are ignored). The resolver stores what it fetches under the issuer's
 * own name.
 */
module IssuerCachingService {
  import opened Wrappers
  import opened AppConfig
  import opened IssuerCachingState

  datatype RefreshCachedIssuerStatus = Skipped | Completed

  /** The entry `set` writes at time `now`. */
  function NewCachedIssuer(value: IssuerDocument, now: int, maxAgeMs: int): CachedIssuer {
    CachedIssuer(now + maxAgeMs, value, Some(now))
  }

  /** The cache's `get` on the entry found for a key: nothing when absent or when `ttl < now`. */
  function CacheGet(cached: Option<CachedIssuer>, now: int): (r: Option<IssuerDocument>)
    ensures r.None? <==> cached.None? || cached.value.ttl < now
    ensures r.Some? ==> r.value == cached.value.value
  {
    if cached.None? || cached.value.ttl < now then None else Some(cached.value.value)
  }

  /**
   * An entry written at `setAt` is returned by `get` exactly until its maximum age has
   * passed: at `setAt` itself when the maximum age is not negative, and at no time after
   * `setAt + maxAgeMs`.
   */
  lemma GetAfterSet(value: IssuerDocument, setAt: int, maxAgeMs: int, now: int)
    ensures CacheGet(Some(NewCachedIssuer(value, setAt, maxAgeMs)), now) == Some(value) <==> now <= setAt + maxAgeMs
    ensures maxAgeMs >= 0 ==> CacheGet(Some(NewCachedIssuer(value, setAt, maxAgeMs)), setAt) == Some(value)
  {
  }

  /** The cache's `set`, writing through to the store; it always reports success. */
  method CacheSet(store: IssuerCaching, key: string, value: IssuerDocument, now: int, config: Config) returns (ok: bool)
    modifies store
    ensures ok
    ensures store.cachedIssuers == Some(old(store.cachedIssuers).GetOr(map[])[key := NewCachedIssuer(value, now, config.issuerCacheMaxAgeMs)])
    ensures store.lastRefreshTimestamp == old(store.lastRefreshTimestamp)
  {
    store.SetCachedIssuer(key, NewCachedIssuer(value, now, config.issuerCacheMaxAgeMs));
    ok := true;
  }

  /** The debounce: skip while `now` is before the last refresh (0 if none) plus the minimum age. */
  predicate ShouldSkipRefresh(now: int, lastRefreshTimestamp: Option<int>, minAgeMs: int) {
    now < lastRefreshTimestamp.GetOr(0) + minAgeMs
  }

  /** After a refresh at `last`, any refresh strictly within the minimum age is skipped. */
  lemma RefreshDebounced(last: int, minAgeMs: int, now: int)
    requires last <= now < last + minAgeMs
    ensures ShouldSkipRefresh(now, Some(last), minAgeMs)
    ensures !ShouldSkipRefresh(last + minAgeMs, Some(last), minAgeMs)
  {
  }

  /**
   * The cache after the resolver has force-refreshed `issuers` in turn at time `now`:
   * each issuer that resolves is written with a fresh entry, the others are left alone.
   */
  function Refreshed(cachedIssuers: Option<map<string, CachedIssuer>>, issuers: seq<string>, resolve: string -> Option<IssuerDocument>, now: int, maxAgeMs: int): Option<map<string, CachedIssuer>>
  {
    if issuers == [] then cachedIssuers
    else
      var before := Refreshed(cachedIssuers, issuers[..|issuers| - 1], resolve, now, maxAgeMs);
      var issuer := issuers[|issuers| - 1];
      match resolve(issuer)
      case None => before
      case Some(document) => Some(before.GetOr(map[])[issuer := NewCachedIssuer(document, now, maxAgeMs)])
  }

  /**
   * What a refresh leaves in the cache: every issuer of the list that resolves holds a fresh
   * entry with its document, and every other key keeps its old entry (or its absence).
   */
  lemma {:induction false} RefreshedEntries(cachedIssuers: Option<map<string, CachedIssuer>>, issuers: seq<string>, resolve: string -> Option<IssuerDocument>, now: int, maxAgeMs: int, key: string)
    ensures key in issuers && resolve(key).Some? ==>
      Lookup(Refreshed(cachedIssuers, issuers, resolve, now, maxAgeMs), key) == Some(NewCachedIssuer(resolve(key).value, now, maxAgeMs))
    ensures !(key in issuers && resolve(key).Some?) ==>
      Lookup(Refreshed(cachedIssuers, issuers, resolve, now, maxAgeMs), key) == Lookup(cachedIssuers, key)
    decreases |issuers|
  {
    if issuers != [] {
      var init := issuers[..|issuers| - 1];
      RefreshedEntries(cachedIssuers, init, resolve, now, maxAgeMs, key);
      assert issuers == init + [issuers[|issuers| - 1]];
    }
  }

  /**
   * `refreshCachedIssuers`: Skipped, touching nothing, inside the debounce window; otherwise
   * every trusted issuer is resolved in list order, even those whose entry has not expired,
   * and the refresh is Completed. `fetched` lists the issuers the resolver was asked for.
   */
  method RefreshCachedIssuers(store: IssuerCaching, lastRefreshTimestamp: Option<int>, config: Config, now: int, resolve: string -> Option<IssuerDocument>)
    returns (status: RefreshCachedIssuerStatus, fetched: seq<string>)
    modifies store
    ensures status == Skipped <==> ShouldSkipRefresh(now, lastRefreshTimestamp, config.issuerCacheRefreshMinAgeMs)
    ensures status == Skipped ==> fetched == [] && store.cachedIssuers == old(store.cachedIssuers)
    ensures status == Completed ==> fetched == config.trustedIssuerList
    ensures status == Completed ==>
      store.cachedIssuers == Refreshed(old(store.cachedIssuers), config.trustedIssuerList, resolve, now, config.issuerCacheMaxAgeMs)
    ensures store.lastRefreshTimestamp == old(store.lastRefreshTimestamp)
  {
    if ShouldSkipRefresh(now, lastRefreshTimestamp, config.issuerCacheRefreshMinAgeMs) {
      return Skipped, [];
    }
    var issuers := config.trustedIssuerList;
    fetched := [];
    for i := 0 to |issuers|
      invariant fetched == issuers[..i]
      invariant store.cachedIssuers == Refreshed(old(store.cachedIssuers), issuers[..i], resolve, now, config.issuerCacheMaxAgeMs)
      invariant store.lastRefreshTimestamp == old(store.lastRefreshTimestamp)
    {
      var issuer := issuers[i];
      fetched := fetched + [issuer];
      assert issuers[..i + 1][..i] == issuers[..i];
      var document := resolve(issuer);
      if document.Some? {
        var _ := CacheSet(store, issuer, document.value, now, config);
      }
    }
    assert issuers[..|issuers|] == issuers;
    status := Completed;
  }
}
