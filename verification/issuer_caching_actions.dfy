/**
 * The issuer caching thunks (app/features/issuerCaching/actions/index.ts): the refresh
 * with its sweep of expired entries, the connectivity trigger, and the cache adapter over
 * the store.
 */
module IssuerCachingActions {
  import opened Wrappers
  import opened AppConfig
  import opened IssuerCachingState
  import opened IssuerCachingService

  /** The entries that survive a sweep at `now`: those whose `ttl` is not before `now`. */
  function Swept(cachedIssuers: Option<map<string, CachedIssuer>>, now: int): Option<map<string, CachedIssuer>>
  {
    if cachedIssuers.None? then None
    else Some(map k | k in cachedIssuers.value && cachedIssuers.value[k].ttl >= now :: cachedIssuers.value[k])
  }

  /**
   * The sweep only removes what `get` already hides: at the same time, looking a key up
   * before or after the sweep gives the same answer. Unexpired entries are kept as they are.
   */
  lemma SweepInvisibleToGet(cachedIssuers: Option<map<string, CachedIssuer>>, now: int, key: string)
    ensures CacheGet(Lookup(Swept(cachedIssuers, now), key), now) == CacheGet(Lookup(cachedIssuers, key), now)
    ensures Lookup(Swept(cachedIssuers, now), key).Some? <==> Lookup(cachedIssuers, key).Some? && Lookup(cachedIssuers, key).value.ttl >= now
    ensures Lookup(Swept(cachedIssuers, now), key).Some? ==> Lookup(Swept(cachedIssuers, now), key) == Lookup(cachedIssuers, key)
  {
  }

  /** `buildIssuerCacheFromStore`'s `get`: reads the store as it is at call time. */
  function StoreCacheGet(store: IssuerCaching, key: string, now: int): (r: Option<IssuerDocument>)
    reads store
    ensures r.Some? <==> Lookup(store.cachedIssuers, key).Some? && Lookup(store.cachedIssuers, key).value.ttl >= now
  {
    CacheGet(Lookup(store.cachedIssuers, key), now)
  }

  /** Writing through the store adapter and reading back at the same time gives the value written. */
  method StoreCacheSetThenGet(store: IssuerCaching, key: string, value: IssuerDocument, now: int, config: Config) returns (read: Option<IssuerDocument>)
    requires config.issuerCacheMaxAgeMs >= 0
    modifies store
    ensures read == Some(value)
  {
    var _ := CacheSet(store, key, value, now, config);
    read := StoreCacheGet(store, key, now);
  }

  /** The entries kept while the sweep still has `remaining` keys to visit. */
  function PartlySwept(snapshot: map<string, CachedIssuer>, remaining: set<string>, now: int): map<string, CachedIssuer> {
    map k | k in snapshot && (k in remaining || snapshot[k].ttl >= now) :: snapshot[k]
  }

  /** The sweep loop of `doRefreshIssuerCache`: deletes, one key at a time, every entry with `ttl < now`. */
  method SweepExpired(store: IssuerCaching, now: int)
    modifies store
    ensures store.cachedIssuers == Swept(old(store.cachedIssuers), now)
    ensures store.lastRefreshTimestamp == old(store.lastRefreshTimestamp)
  {
    if store.cachedIssuers.None? {
      return;
    }
    var snapshot := store.cachedIssuers.value;
    var remaining := snapshot.Keys;
    assert PartlySwept(snapshot, remaining, now) == snapshot;
    while remaining != {}
      invariant remaining <= snapshot.Keys
      invariant store.cachedIssuers == Some(PartlySwept(snapshot, remaining, now))
      invariant store.lastRefreshTimestamp == old(store.lastRefreshTimestamp)
      decreases remaining
    {
      var key :| key in remaining;
      if snapshot[key].ttl < now {
        store.DeleteCachedIssuer(key);
        assert PartlySwept(snapshot, remaining, now) - {key} == PartlySwept(snapshot, remaining - {key}, now);
      } else {
        assert PartlySwept(snapshot, remaining, now) == PartlySwept(snapshot, remaining - {key}, now);
      }
      remaining := remaining - {key};
    }
    assert PartlySwept(snapshot, {}, now) == Swept(old(store.cachedIssuers), now).value;
  }

  /**
   * `doRefreshIssuerCache`: refreshes with the stored refresh time; unless that is skipped,
   * sweeps the expired entries and only then records `now` as the refresh time.
   */
  method DoRefreshIssuerCache(store: IssuerCaching, config: Config, now: int, resolve: string -> Option<IssuerDocument>)
    returns (status: RefreshCachedIssuerStatus, fetched: seq<string>)
    modifies store
    ensures status == Skipped <==> ShouldSkipRefresh(now, old(store.lastRefreshTimestamp), config.issuerCacheRefreshMinAgeMs)
    ensures status == Skipped ==>
      fetched == [] && store.cachedIssuers == old(store.cachedIssuers) && store.lastRefreshTimestamp == old(store.lastRefreshTimestamp)
    ensures status == Completed ==>
      && fetched == config.trustedIssuerList
      && store.cachedIssuers == Swept(Refreshed(old(store.cachedIssuers), config.trustedIssuerList, resolve, now, config.issuerCacheMaxAgeMs), now)
      && store.lastRefreshTimestamp == Some(now)
  {
    status, fetched := RefreshCachedIssuers(store, store.lastRefreshTimestamp, config, now, resolve);
    if status != Completed {
      return;
    }
    SweepExpired(store, now);
    store.SetIssuerCacheUpdated(now);
  }

  /**
   * A completed refresh keeps every trusted issuer it resolved (when the maximum age is not
   * negative) and drops every other entry that had expired.
   */
  lemma CompletedRefreshContents(cachedIssuers: Option<map<string, CachedIssuer>>, config: Config, now: int, resolve: string -> Option<IssuerDocument>, key: string)
    requires config.issuerCacheMaxAgeMs >= 0
    ensures var after := Swept(Refreshed(cachedIssuers, config.trustedIssuerList, resolve, now, config.issuerCacheMaxAgeMs), now);
      && (key in config.trustedIssuerList && resolve(key).Some? ==>
            CacheGet(Lookup(after, key), now) == resolve(key))
      && (!(key in config.trustedIssuerList && resolve(key).Some?) ==>
            Lookup(after, key) == (if Lookup(cachedIssuers, key).Some? && Lookup(cachedIssuers, key).value.ttl >= now then Lookup(cachedIssuers, key) else None))
  {
    RefreshedEntries(cachedIssuers, config.trustedIssuerList, resolve, now, config.issuerCacheMaxAgeMs, key);
    SweepInvisibleToGet(Refreshed(cachedIssuers, config.trustedIssuerList, resolve, now, config.issuerCacheMaxAgeMs), now, key);
  }

  /**
   * Two refreshes one after the other: a refresh that starts after a completed one, and
   * within the minimum age of it, fetches nothing.
   */
  method RefreshTwice(store: IssuerCaching, config: Config, firstAt: int, secondAt: int, resolve: string -> Option<IssuerDocument>)
    returns (first: seq<string>, second: seq<string>)
    requires firstAt <= secondAt < firstAt + config.issuerCacheRefreshMinAgeMs
    modifies store
    ensures first != [] ==> second == []
  {
    var status;
    status, first := DoRefreshIssuerCache(store, config, firstAt, resolve);
    if status == Completed {
      RefreshDebounced(firstAt, config.issuerCacheRefreshMinAgeMs, secondAt);
    }
    var secondStatus;
    secondStatus, second := DoRefreshIssuerCache(store, config, secondAt, resolve);
  }

  /**
   * The connectivity listener of `doSetupCacheRefresh`: a refresh only when the internet is
   * reported reachable (`isInternetReachable` may be unknown, which is falsy).
   */
  method OnNetworkStateChange(store: IssuerCaching, isInternetReachable: Option<bool>, config: Config, now: int, resolve: string -> Option<IssuerDocument>)
    returns (status: Option<RefreshCachedIssuerStatus>)
    modifies store
    ensures status.None? <==> isInternetReachable != Some(true)
    ensures status.None? ==> store.cachedIssuers == old(store.cachedIssuers) && store.lastRefreshTimestamp == old(store.lastRefreshTimestamp)
    ensures isInternetReachable == Some(true) ==>
      (status == Some(Skipped) <==> ShouldSkipRefresh(now, old(store.lastRefreshTimestamp), config.issuerCacheRefreshMinAgeMs))
    ensures status == Some(Skipped) ==>
      store.cachedIssuers == old(store.cachedIssuers) && store.lastRefreshTimestamp == old(store.lastRefreshTimestamp)
    ensures status == Some(Completed) ==>
      && store.cachedIssuers == Swept(Refreshed(old(store.cachedIssuers), config.trustedIssuerList, resolve, now, config.issuerCacheMaxAgeMs), now)
      && store.lastRefreshTimestamp == Some(now)
  {
    if isInternetReachable != Some(true) {
      return None;
    }
    var s, _ := DoRefreshIssuerCache(store, config, now, resolve);
    status := Some(s);
  }
}
