/**
 * The issuer caching slice (app/features/issuerCaching/state/types.ts and slice.ts): the
 * resolved issuer documents by key, and the time of the last completed refresh.
 */
module IssuerCachingState {
  import opened Wrappers

  /** A resolved issuer document; its content is opaque to the app. */
  datatype IssuerDocument = IssuerDocument(content: string)

  /**
   * One cache entry. `updatedTimestamp` is optional because the selector below reads it with
   * a `?? 0` fallback.
   */
  datatype CachedIssuer = CachedIssuer(ttl: int, value: IssuerDocument, updatedTimestamp: Option<int>)

  /** The entry of `key`, if the map exists and holds it (`cachedIssuers?.[key]`). */
  function Lookup(cachedIssuers: Option<map<string, CachedIssuer>>, key: string): (r: Option<CachedIssuer>)
    ensures r.Some? <==> cachedIssuers.Some? && key in cachedIssuers.value
    ensures r.Some? ==> r.value == cachedIssuers.value[key]
  {
    if cachedIssuers.Some? && key in cachedIssuers.value then Some(cachedIssuers.value[key]) else None
  }

  class IssuerCaching {
    var cachedIssuers: Option<map<string, CachedIssuer>>
    var lastRefreshTimestamp: Option<int>

    /** The initial state is empty: no map and no refresh time. */
    constructor ()
      ensures cachedIssuers == None && lastRefreshTimestamp == None
    {
      cachedIssuers, lastRefreshTimestamp := None, None;
    }

    /** `doSetCachedIssuer`: inserts or overwrites one key, creating the map if needed. */
    method SetCachedIssuer(key: string, value: CachedIssuer)
      modifies this
      ensures cachedIssuers == Some(old(cachedIssuers).GetOr(map[])[key := value])
      ensures cachedIssuers.Some? && key in cachedIssuers.value && cachedIssuers.value[key] == value
      ensures forall k :: k != key ==> Lookup(cachedIssuers, k) == Lookup(old(cachedIssuers), k)
      ensures lastRefreshTimestamp == old(lastRefreshTimestamp)
    {
      cachedIssuers := Some(cachedIssuers.GetOr(map[])[key := value]);
    }

    /** `doDeleteCachedIssuer`: removes one key; without a map nothing changes. */
    method DeleteCachedIssuer(key: string)
      modifies this
      ensures Lookup(cachedIssuers, key) == None
      ensures forall k :: k != key ==> Lookup(cachedIssuers, k) == Lookup(old(cachedIssuers), k)
      ensures cachedIssuers == if old(cachedIssuers).None? then None else Some(old(cachedIssuers).value - {key})
      ensures lastRefreshTimestamp == old(lastRefreshTimestamp)
    {
      if cachedIssuers.Some? {
        cachedIssuers := Some(cachedIssuers.value - {key});
      }
    }

    /** `doSetIssuerCacheUpdated`: records the refresh time and nothing else. */
    method SetIssuerCacheUpdated(timestamp: int)
      modifies this
      ensures lastRefreshTimestamp == Some(timestamp)
      ensures cachedIssuers == old(cachedIssuers)
    {
      lastRefreshTimestamp := Some(timestamp);
    }
  }

  /** The timestamp the selector folds in for one entry (`item.updatedTimestamp ?? 0`). */
  function TimestampOrZero(entry: CachedIssuer): int {
    entry.updatedTimestamp.GetOr(0)
  }

  /**
   * The `reduce` of the selector, seeded with 0: the largest timestamp of the entries, or 0
   * when none is positive. The order of `Object.values` does not matter for a maximum.
   */
  ghost function MaxUpdatedTimestamp(entries: map<string, CachedIssuer>): (r: int)
    ensures r >= 0
    ensures forall k :: k in entries ==> TimestampOrZero(entries[k]) <= r
    ensures r == 0 || exists k :: k in entries && TimestampOrZero(entries[k]) == r
    decreases |entries|
  {
    if entries == map[] then 0
    else
      var k :| k in entries;
      var rest := MaxUpdatedTimestamp(entries - {k});
      assert forall j :: j in entries && j != k ==> j in entries - {k};
      if TimestampOrZero(entries[k]) > rest then TimestampOrZero(entries[k]) else rest
  }

  /**
   * `selectMaximumCachedIssuersUpdatedTimestamp`: absent for a missing or empty map,
   * otherwise the maximum with 0 as the seed.
   */
  ghost function SelectMaximumCachedIssuersUpdatedTimestamp(cachedIssuers: Option<map<string, CachedIssuer>>): (r: Option<int>)
    ensures r.None? <==> cachedIssuers.None? || cachedIssuers.value == map[]
    ensures r.Some? ==> r.value >= 0
    ensures r.Some? ==> forall k :: k in cachedIssuers.value ==> TimestampOrZero(cachedIssuers.value[k]) <= r.value
    ensures r.Some? && r.value != 0 ==> exists k :: k in cachedIssuers.value && TimestampOrZero(cachedIssuers.value[k]) == r.value
  {
    if cachedIssuers.None? || cachedIssuers.value == map[] then None
    else Some(MaxUpdatedTimestamp(cachedIssuers.value))
  }

  /** Writing an entry with a later timestamp raises the selected maximum to that timestamp. */
  lemma SelectAfterSet(cachedIssuers: Option<map<string, CachedIssuer>>, key: string, entry: CachedIssuer)
    requires entry.updatedTimestamp.Some?
    requires forall k :: k in cachedIssuers.GetOr(map[]) ==> TimestampOrZero(cachedIssuers.value[k]) <= entry.updatedTimestamp.value
    requires entry.updatedTimestamp.value >= 0
    ensures SelectMaximumCachedIssuersUpdatedTimestamp(Some(cachedIssuers.GetOr(map[])[key := entry])) == entry.updatedTimestamp
  {
    var m := cachedIssuers.GetOr(map[])[key := entry];
    var r := MaxUpdatedTimestamp(m);
    assert TimestampOrZero(m[key]) <= r;
    if r != 0 {
      var k :| k in m && TimestampOrZero(m[k]) == r;
      if k != key {
        assert k in cachedIssuers.GetOr(map[]);
      }
    }
  }
}
