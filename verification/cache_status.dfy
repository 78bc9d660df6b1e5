/**
 * The offline cache freshness shown on the home screen (app/features/home/utilities/index.ts):
 * how urgently the issuer cache needs a refresh, from whole days left before it expires.
 */
module CacheStatus {
  import opened Wrappers

  const DAY_MS: int := 86_400_000

  datatype CacheStatusDetails =
    | UpToDate
    | RecentlyUpdated(lastCacheUpdate: int)
    | NeedsUpdateSoon(cacheInvalidDate: int)
    | NeedsImmediateUpdate(cacheInvalidDate: int)

  /** The whole days in a span of milliseconds, truncated toward zero as whole-day counts are. */
  function WholeDays(ms: int): (days: int)
    ensures ms >= 0 ==> days >= 0 && days * DAY_MS <= ms < days * DAY_MS + DAY_MS
    ensures ms < 0 ==> days <= 0 && days * DAY_MS - DAY_MS < ms <= days * DAY_MS
  {
    if ms >= 0 then ms / DAY_MS else -((-ms) / DAY_MS)
  }

  /** `differenceInDays(later, earlier)`: the number of whole days between two instants. */
  function DifferenceInDays(laterMs: int, earlierMs: int): int {
    WholeDays(laterMs - earlierMs)
  }

  /** For a threshold of at least one day, comparing whole days is comparing the time left. */
  lemma {:induction false} DaysBelow(remainingMs: int, days: int)
    requires days >= 1
    ensures WholeDays(remainingMs) < days <==> remainingMs < days * DAY_MS
  {
    var q := WholeDays(remainingMs);
    if q < days {
      if remainingMs >= 0 {
        assert q + 1 <= days;
        assert (q + 1) * DAY_MS <= days * DAY_MS;
      }
    } else {
      assert remainingMs >= 0;
      assert q * DAY_MS >= days * DAY_MS;
    }
  }

  /**
   * `getCurrentCacheStatus`: with no (or a zero) last update the cache needs an immediate
   * update, due now. Otherwise the cache expires at `lastCacheUpdate + maxAgeMs`, and the
   * time left before then decides: under 1 day immediate, under 7 days soon, under 13 days
   * recently updated, else up to date.
   */
  function GetCurrentCacheStatus(lastCacheUpdate: Option<int>, now: int, maxAgeMs: int): (r: CacheStatusDetails)
    ensures lastCacheUpdate.None? || lastCacheUpdate == Some(0) ==> r == NeedsImmediateUpdate(now)
    ensures lastCacheUpdate.Some? && lastCacheUpdate.value != 0 ==>
      var invalidAt := lastCacheUpdate.value + maxAgeMs;
      var remaining := invalidAt - now;
      && (r.NeedsImmediateUpdate? <==> remaining < DAY_MS)
      && (r.NeedsUpdateSoon? <==> DAY_MS <= remaining < 7 * DAY_MS)
      && (r.RecentlyUpdated? <==> 7 * DAY_MS <= remaining < 13 * DAY_MS)
      && (r.UpToDate? <==> 13 * DAY_MS <= remaining)
      && ((r.NeedsImmediateUpdate? || r.NeedsUpdateSoon?) ==> r.cacheInvalidDate == invalidAt)
      && (r.RecentlyUpdated? ==> r.lastCacheUpdate == lastCacheUpdate.value)
  {
    if lastCacheUpdate.None? || lastCacheUpdate.value == 0 then NeedsImmediateUpdate(now)
    else
      var cacheInvalidDate := lastCacheUpdate.value + maxAgeMs;
      var daysRemainingToUpdate := DifferenceInDays(cacheInvalidDate, now);
      DaysBelow(cacheInvalidDate - now, 1);
      DaysBelow(cacheInvalidDate - now, 7);
      DaysBelow(cacheInvalidDate - now, 13);
      if daysRemainingToUpdate < 1 then NeedsImmediateUpdate(cacheInvalidDate)
      else if daysRemainingToUpdate < 7 then NeedsUpdateSoon(cacheInvalidDate)
      else if daysRemainingToUpdate < 13 then RecentlyUpdated(lastCacheUpdate.value)
      else UpToDate
  }

  /** How urgent a status is, from 0 (up to date) to 3 (immediate). */
  function Urgency(status: CacheStatusDetails): nat {
    match status
    case UpToDate => 0
    case RecentlyUpdated(_) => 1
    case NeedsUpdateSoon(_) => 2
    case NeedsImmediateUpdate(_) => 3
  }

  /** As time passes the status never becomes less urgent. */
  lemma UrgencyGrowsWithTime(lastCacheUpdate: Option<int>, maxAgeMs: int, earlier: int, later: int)
    requires earlier <= later
    ensures Urgency(GetCurrentCacheStatus(lastCacheUpdate, earlier, maxAgeMs)) <= Urgency(GetCurrentCacheStatus(lastCacheUpdate, later, maxAgeMs))
  {
  }

  /** A more recent update never gives a more urgent status; a missing one is the most urgent. */
  lemma UrgencyFallsWithNewerUpdate(older: int, newer: int, maxAgeMs: int, now: int)
    requires older != 0 && newer != 0 && older <= newer
    ensures Urgency(GetCurrentCacheStatus(Some(newer), now, maxAgeMs)) <= Urgency(GetCurrentCacheStatus(Some(older), now, maxAgeMs))
    ensures Urgency(GetCurrentCacheStatus(Some(older), now, maxAgeMs)) <= Urgency(GetCurrentCacheStatus(None, now, maxAgeMs))
  {
  }
}
