/**
 * The version check thunks (app/features/versionCheck/actions/index.ts): whether to check,
 * what to store, and where to send the user when the app must be updated.
 *
 * The installed version (`currentVersion`) and the store URL lookup (`storeUrl`, absent
 * when it fails) are inputs; the library race is the oracle `race`.
 */
module VersionCheckActions {
  import opened Wrappers
  import opened AppConfig
  import opened VersionCheckTypes
  import opened VersionCheckService
  import opened VersionCheckState
  import opened AppEffects

  /** The store-facing fields of a successful check. */
  function CheckedInfo(ok: CheckOk): (info: VersionInfo)
    ensures info.isUpdateNeeded == ok.isUpdateNeeded
    ensures info.currentVersion == Some(ok.currentVersion) && info.latestVersion == Some(ok.latestVersion)
    ensures info.versionUpdateUrl == Some(ok.versionUpdateUrl)
  {
    VersionInfo(ok.isUpdateNeeded, Some(ok.currentVersion), Some(ok.latestVersion), Some(ok.versionUpdateUrl))
  }

  /**
   * `doVersionCheck`. Disabled: nothing happens. A recheck within the minimum age: skipped.
   * Otherwise the check runs, forced when the last success is outdated; its error is a
   * failure that blocks the app (stored, navigation reset to ConnectionRequired) only when
   * an update is forced; a needed update is a stored failure that resets navigation to
   * VersionUpdate; anything else is a stored success at `now`.
   */
  method DoVersionCheck(state: VersionCheck, config: Config, isRecheckOption: Option<bool>, now: int,
                        race: CheckRequest -> CheckRace, currentVersion: string, storeUrl: Option<string>)
    returns (result: VersionCheckResult, effects: seq<Effect>)
    modifies state
    ensures |effects| <= 3
    ensures forall i :: 0 <= i < |effects| ==> (effects[i].VersionCheckRequested? <==> i == 0)
    ensures forall i :: 0 <= i < |effects| ==> effects[i].VersionCheckRequested? || effects[i].VersionCheckResultDispatched? || effects[i].NavigateReset?
    ensures result.info.isUpdateNeeded <==> |effects| == 3 && effects[2].NavigateReset?
    ensures !IsVersionCheckEnabled(config) ==> result == Disabled(NoUpdateInfo) && effects == []
    ensures var isRecheck := isRecheckOption.GetOr(false);
      IsVersionCheckEnabled(config) && isRecheck && !IsLastCheckOutdated(now, old(state.lastVersionCheckAt), config) ==>
        result == Skipped(NoUpdateInfo) && effects == []
    ensures var isRecheck := isRecheckOption.GetOr(false);
      var forced := IsLastSuccessfulCheckOutdated(now, old(state.lastSuccessCheckAt), config);
      var checked := Check(isRecheck, forced, config, race);
      var defaults := GetDefaultVersionInfo(currentVersion, storeUrl, config);
      IsVersionCheckEnabled(config) && !(isRecheck && !IsLastCheckOutdated(now, old(state.lastVersionCheckAt), config)) ==>
        && |effects| >= 1
        && effects[0] == VersionCheckRequested(CheckRequestFor(isRecheck, forced, config))
        && (checked.Failure? && forced ==>
              && result == Failed(VersionInfo(true, Some(defaults.currentVersion), None, defaults.versionUpdateUrl), now)
              && effects == [effects[0], VersionCheckResultDispatched(result), NavigateReset(ConnectionRequired)])
        && (checked.Failure? && !forced ==> result == Failed(NoUpdateInfo, now) && effects == [effects[0]])
        && (checked.Success? && checked.value.isUpdateNeeded ==>
              && result == Failed(CheckedInfo(checked.value), now)
              && effects == [effects[0], VersionCheckResultDispatched(result), NavigateReset(VersionUpdate)])
        && (checked.Success? && !checked.value.isUpdateNeeded ==>
              && result == Succeeded(CheckedInfo(checked.value), now, now)
              && effects == [effects[0], VersionCheckResultDispatched(result)])
    ensures VersionCheckResultDispatched(result) in effects ==>
      && state.isUpdateNeeded == Some(result.info.isUpdateNeeded)
      && state.currentVersion == result.info.currentVersion
      && state.versionUpdateUrl == result.info.versionUpdateUrl
      && state.lastVersionCheckAt == now
      && state.lastSuccessCheckAt == (if result.Succeeded? then Some(now) else old(state.lastSuccessCheckAt))
      && state.latestVersion == old(state.latestVersion)
    ensures VersionCheckResultDispatched(result) !in effects ==>
      && state.lastVersionCheckAt == old(state.lastVersionCheckAt) && state.lastSuccessCheckAt == old(state.lastSuccessCheckAt)
      && state.isUpdateNeeded == old(state.isUpdateNeeded) && state.currentVersion == old(state.currentVersion)
      && state.versionUpdateUrl == old(state.versionUpdateUrl) && state.latestVersion == old(state.latestVersion)
  {
    var isRecheck := isRecheckOption.GetOr(false);
    if !IsVersionCheckEnabled(config) {
      return Disabled(NoUpdateInfo), [];
    }
    var lastSuccessCheckAt, lastVersionCheckAt := state.lastSuccessCheckAt, state.lastVersionCheckAt;
    if isRecheck && !IsLastCheckOutdated(now, lastVersionCheckAt, config) {
      return Skipped(NoUpdateInfo), [];
    }
    var isLastSuccessfulCheckOutdated := IsLastSuccessfulCheckOutdated(now, lastSuccessCheckAt, config);
    effects := [VersionCheckRequested(CheckRequestFor(isRecheck, isLastSuccessfulCheckOutdated, config))];
    var checked := Check(isRecheck, isLastSuccessfulCheckOutdated, config, race);
    if checked.Failure? {
      if isLastSuccessfulCheckOutdated {
        var defaultInfo := GetDefaultVersionInfo(currentVersion, storeUrl, config);
        result := Failed(VersionInfo(true, Some(defaultInfo.currentVersion), None, defaultInfo.versionUpdateUrl), now);
        state.SetVersionCheckResult(result);
        effects := effects + [VersionCheckResultDispatched(result), NavigateReset(ConnectionRequired)];
        return;
      }
      return Failed(NoUpdateInfo, now), effects;
    }
    if checked.value.isUpdateNeeded {
      result := Failed(CheckedInfo(checked.value), now);
      state.SetVersionCheckResult(result);
      effects := effects + [VersionCheckResultDispatched(result), NavigateReset(VersionUpdate)];
      return;
    }
    result := Succeeded(CheckedInfo(checked.value), now, now);
    state.SetVersionCheckResult(result);
    effects := effects + [VersionCheckResultDispatched(result)];
  }

  /**
   * A check whose result was stored is not repeated by a recheck within the minimum age:
   * `doRecheckVersion` then answers Skipped, with no update needed.
   */
  method CheckThenRecheck(state: VersionCheck, config: Config, firstAt: int, secondAt: int,
                          race: CheckRequest -> CheckRace, currentVersion: string, storeUrl: Option<string>)
    returns (first: VersionCheckResult, second: VersionCheckResult)
    requires firstAt <= secondAt <= firstAt + config.versionCheckLastCheckMinAgeMs
    modifies state
    ensures first.Succeeded? ==> second == Skipped(NoUpdateInfo)
    ensures first.Failed? && first.info.isUpdateNeeded ==> second == Skipped(NoUpdateInfo)
  {
    var effects;
    first, effects := DoVersionCheck(state, config, None, firstAt, race, currentVersion, storeUrl);
    second, effects := DoVersionCheck(state, config, Some(true), secondAt, race, currentVersion, storeUrl);
  }

  /** `doForceVersionUpdate`: opens the stored update URL, if there is a non-empty one. */
  function ForceVersionUpdateEffects(versionUpdateUrl: Option<string>): (effects: seq<Effect>)
    ensures effects != [] <==> versionUpdateUrl.Some? && versionUpdateUrl.value != ""
    ensures effects != [] ==> effects == [OpenBrowser(versionUpdateUrl.value)]
  {
    if versionUpdateUrl.Some? && versionUpdateUrl.value != "" then [OpenBrowser(versionUpdateUrl.value)] else []
  }
}
