/**
 * App start-up (app/features/setup/actions/index.ts): cache refresh, audio, the version
 * check, then either the update prompt or analytics and the initial route; the splash
 * screen is hidden last.
 *
 * The store state the thunk reads (onboarding completion, the accepted terms version and
 * whether the app was launched before) is passed in.
 */
module SetupActions {
  import opened Wrappers
  import opened AppConfig
  import opened Analytics
  import opened AppEffects
  import opened VersionCheckTypes
  import opened VersionCheckService
  import opened VersionCheckState
  import opened VersionCheckActions
  import opened TermsAndConditionsService

  /** `navigateToInitialRoute`: onboarding first, then the latest terms, then home. */
  function InitialRoute(isOnboardingComplete: bool, acceptedVersion: int, config: Config): (route: Route)
    ensures route == Onboarding <==> !isOnboardingComplete
    ensures route == TermsAndConditions <==> isOnboardingComplete && !IsLatestTermsAndConditionsVersion(acceptedVersion, config)
    ensures route == Home <==> isOnboardingComplete && IsLatestTermsAndConditionsVersion(acceptedVersion, config)
  {
    if !isOnboardingComplete then Onboarding
    else if !IsLatestTermsAndConditionsVersion(acceptedVersion, config) then TermsAndConditions
    else Home
  }

  /** After accepting the terms, an onboarded user starts at home. */
  lemma AcceptedTermsLeadHome(config: Config)
    ensures InitialRoute(true, AcceptTermsAndConditions(config), config) == Home
  {
  }

  /**
   * What start-up does once the version check has answered. When an update is needed only
   * the splash screen is hidden (the check has already sent the user on). Otherwise analytics
   * is set up and first use recorded when analytics is enabled, and the user is sent to the
   * initial route just before the splash screen is hidden.
   */
  function AfterVersionCheck(isUpdateNeeded: bool, config: Config, isOnboardingComplete: bool, acceptedVersion: int, appHasFirstLaunched: bool): (tail: seq<Effect>)
    ensures |tail| >= 1 && tail[|tail| - 1] == HideSplashScreen
    ensures forall i :: 0 <= i < |tail| - 1 ==> tail[i] != HideSplashScreen
    ensures forall i :: 0 <= i < |tail| ==> !tail[i].VersionCheckRequested? && !tail[i].NavigateReset?
    ensures isUpdateNeeded ==> tail == [HideSplashScreen]
    ensures !isUpdateNeeded ==>
      && |tail| >= 2
      && tail[|tail| - 2] == NavigateReplace(InitialRoute(isOnboardingComplete, acceptedVersion, config))
      && (forall i :: 0 <= i < |tail| - 2 ==> !tail[i].IsNavigation())
      && (AnalyticsSetUp in tail <==> config.analyticsEnabled)
      && (AnalyticsRecorded(AnalyticsRecord(FirstUse, None, None)) in tail <==> config.analyticsEnabled && !appHasFirstLaunched)
  {
    if isUpdateNeeded then [HideSplashScreen]
    else
      var analytics := if config.analyticsEnabled then [AnalyticsSetUp] + (match FirstUseRecord(config.analyticsEnabled, appHasFirstLaunched)
        case Some(record) => [AnalyticsRecorded(record)]
        case None => []) else [];
      analytics + [NavigateReplace(InitialRoute(isOnboardingComplete, acceptedVersion, config)), HideSplashScreen]
  }

  /**
   * `doSetupApp`: the cache refresh is set up and audio initialised, then the version check
   * runs (never as a recheck), then the steps above follow. When an update is needed the
   * version check has already reset navigation, which is why start-up only hides the splash
   * screen then.
   */
  method DoSetupApp(versionCheck: VersionCheck, config: Config, now: int, race: CheckRequest -> CheckRace,
                    currentVersion: string, storeUrl: Option<string>,
                    isOnboardingComplete: bool, acceptedVersion: int, appHasFirstLaunched: bool)
    returns (versionInfo: VersionCheckResult, checkEffects: seq<Effect>, effects: seq<Effect>)
    modifies versionCheck
    ensures forall i :: 0 <= i < |checkEffects| ==> (checkEffects[i].VersionCheckRequested? <==> i == 0)
    ensures forall i :: 0 <= i < |checkEffects| ==>
      checkEffects[i].VersionCheckRequested? || checkEffects[i].VersionCheckResultDispatched? || checkEffects[i].NavigateReset?
    ensures versionInfo.info.isUpdateNeeded <==> |checkEffects| == 3 && checkEffects[2].NavigateReset?
    ensures !IsVersionCheckEnabled(config) ==> versionInfo == Disabled(NoUpdateInfo) && checkEffects == []
    ensures var forced := IsLastSuccessfulCheckOutdated(now, old(versionCheck.lastSuccessCheckAt), config);
      var checked := Check(false, forced, config, race);
      var defaults := GetDefaultVersionInfo(currentVersion, storeUrl, config);
      IsVersionCheckEnabled(config) ==>
        && |checkEffects| >= 1
        && checkEffects[0] == VersionCheckRequested(CheckRequestFor(false, forced, config))
        && (checked.Failure? && forced ==>
              && versionInfo == Failed(VersionInfo(true, Some(defaults.currentVersion), None, defaults.versionUpdateUrl), now)
              && checkEffects == [checkEffects[0], VersionCheckResultDispatched(versionInfo), NavigateReset(ConnectionRequired)])
        && (checked.Failure? && !forced ==> versionInfo == Failed(NoUpdateInfo, now) && checkEffects == [checkEffects[0]])
        && (checked.Success? && checked.value.isUpdateNeeded ==>
              && versionInfo == Failed(CheckedInfo(checked.value), now)
              && checkEffects == [checkEffects[0], VersionCheckResultDispatched(versionInfo), NavigateReset(VersionUpdate)])
        && (checked.Success? && !checked.value.isUpdateNeeded ==>
              && versionInfo == Succeeded(CheckedInfo(checked.value), now, now)
              && checkEffects == [checkEffects[0], VersionCheckResultDispatched(versionInfo)])
    ensures VersionCheckResultDispatched(versionInfo) in checkEffects ==>
      && versionCheck.isUpdateNeeded == Some(versionInfo.info.isUpdateNeeded)
      && versionCheck.currentVersion == versionInfo.info.currentVersion
      && versionCheck.versionUpdateUrl == versionInfo.info.versionUpdateUrl
      && versionCheck.lastVersionCheckAt == now
      && versionCheck.lastSuccessCheckAt == (if versionInfo.Succeeded? then Some(now) else old(versionCheck.lastSuccessCheckAt))
      && versionCheck.latestVersion == old(versionCheck.latestVersion)
    ensures VersionCheckResultDispatched(versionInfo) !in checkEffects ==>
      && versionCheck.lastVersionCheckAt == old(versionCheck.lastVersionCheckAt)
      && versionCheck.lastSuccessCheckAt == old(versionCheck.lastSuccessCheckAt)
      && versionCheck.isUpdateNeeded == old(versionCheck.isUpdateNeeded) && versionCheck.currentVersion == old(versionCheck.currentVersion)
      && versionCheck.versionUpdateUrl == old(versionCheck.versionUpdateUrl) && versionCheck.latestVersion == old(versionCheck.latestVersion)
    ensures effects == [CacheRefreshSetUp, InitialiseAudio] + checkEffects
      + AfterVersionCheck(versionInfo.info.isUpdateNeeded, config, isOnboardingComplete, acceptedVersion, appHasFirstLaunched)
  {
    effects := [CacheRefreshSetUp, InitialiseAudio];
    versionInfo, checkEffects := DoVersionCheck(versionCheck, config, None, now, race, currentVersion, storeUrl);
    effects := effects + checkEffects;
    if versionInfo.info.isUpdateNeeded {
      effects := effects + [HideSplashScreen];
      return;
    }
    if config.analyticsEnabled {
      effects := effects + [AnalyticsSetUp];
      var firstUse := FirstUseRecord(config.analyticsEnabled, appHasFirstLaunched);
      if firstUse.Some? {
        effects := effects + [AnalyticsRecorded(firstUse.value)];
      }
    }
    effects := effects + [NavigateReplace(InitialRoute(isOnboardingComplete, acceptedVersion, config)), HideSplashScreen];
  }

  /**
   * The start-up trace in order: cache refresh set-up first and audio second, the version
   * check request (if any) third, the splash screen hidden once and last. An update prompt
   * suppresses the initial route and analytics; otherwise the initial route is the only
   * replacing navigation.
   */
  lemma {:induction false} SetupOrder(checkEffects: seq<Effect>, isUpdateNeeded: bool, config: Config,
                                      isOnboardingComplete: bool, acceptedVersion: int, appHasFirstLaunched: bool)
    requires forall i :: 0 <= i < |checkEffects| ==> (checkEffects[i].VersionCheckRequested? <==> i == 0)
    requires forall i :: 0 <= i < |checkEffects| ==>
      checkEffects[i].VersionCheckRequested? || checkEffects[i].VersionCheckResultDispatched? || checkEffects[i].NavigateReset?
    ensures var effects := [CacheRefreshSetUp, InitialiseAudio] + checkEffects
      + AfterVersionCheck(isUpdateNeeded, config, isOnboardingComplete, acceptedVersion, appHasFirstLaunched);
      && effects[0] == CacheRefreshSetUp && effects[1] == InitialiseAudio
      && (forall i :: 0 <= i < |effects| && effects[i].VersionCheckRequested? ==> i == 2)
      && effects[|effects| - 1] == HideSplashScreen
      && (forall i :: 0 <= i < |effects| - 1 ==> effects[i] != HideSplashScreen)
      && (isUpdateNeeded ==> (forall i :: 0 <= i < |effects| ==> !effects[i].NavigateReplace?) && AnalyticsSetUp !in effects)
      && (!isUpdateNeeded ==>
            forall i :: 0 <= i < |effects| && effects[i].NavigateReplace? ==>
              i == |effects| - 2 && effects[i].route == InitialRoute(isOnboardingComplete, acceptedVersion, config))
  {
    var head := [CacheRefreshSetUp, InitialiseAudio];
    var tail := AfterVersionCheck(isUpdateNeeded, config, isOnboardingComplete, acceptedVersion, appHasFirstLaunched);
    var effects := head + checkEffects + tail;
    forall i | 0 <= i < |effects|
      ensures i < 2 ==> effects[i] == head[i]
      ensures 2 <= i < 2 + |checkEffects| ==> effects[i] == checkEffects[i - 2]
      ensures 2 + |checkEffects| <= i ==> effects[i] == tail[i - 2 - |checkEffects|]
    {
    }
    if isUpdateNeeded {
      assert AnalyticsSetUp !in head && AnalyticsSetUp !in checkEffects && AnalyticsSetUp !in tail;
    }
  }
}
