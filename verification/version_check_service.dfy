/**
 * The version check service (app/features/versionCheck/services/versionCheckService.ts):
 * staleness of past checks, the check policy, and the outcome of one check.
 *
 * The version check library is an oracle: `race` gives, for the request the service builds,
 * which of the library call and the timeout settles first and how.
 */
module VersionCheckService {
  import opened Wrappers
  import opened Js
  import opened AppConfig
  import opened VersionCheckTypes

  /** `parseVersionDepth`: how many version components are compared. */
  function ParseVersionDepth(policy: string): (depth: int)
    ensures 1 <= depth <= 3
    ensures depth == 1 <==> policy == "MAJOR"
    ensures depth == 2 <==> policy == "MINOR"
  {
    match policy
    case "MAJOR" => 1
    case "MINOR" => 2
    case "PATCH" => 3
    case _ => 3
  }

  /** An unknown policy compares as strictly as PATCH. */
  lemma UnknownPolicyIsPatch(policy: string)
    requires policy != "MAJOR" && policy != "MINOR"
    ensures ParseVersionDepth(policy) == ParseVersionDepth("PATCH")
  {
  }

  /** `isVersionCheckEnabled`: the flag must be exactly `true`. */
  predicate IsVersionCheckEnabled(config: Config) {
    config.versionCheckEnabled == Bool(true)
  }

  /** Other truthy values, such as the string "true" or the number 1, do not enable the check. */
  lemma OnlyTrueEnablesVersionCheck(config: Config)
    ensures IsVersionCheckEnabled(config) ==> Truthy(config.versionCheckEnabled)
    ensures config.versionCheckEnabled.Str? || config.versionCheckEnabled.Number? ==> !IsVersionCheckEnabled(config)
  {
  }

  /** `isLastCheckOutdated`: strictly more than the minimum age has passed since the last check. */
  predicate IsLastCheckOutdated(now: int, lastVersionCheckAt: int, config: Config) {
    now > lastVersionCheckAt + config.versionCheckLastCheckMinAgeMs
  }

  /**
   * `isLastSuccessfulCheckOutdated`: never when there was no successful check (or it is
   * recorded as 0), otherwise strictly more than the maximum age has passed.
   */
  predicate IsLastSuccessfulCheckOutdated(now: int, lastSuccessCheckAt: Option<int>, config: Config) {
    if lastSuccessCheckAt.None? || lastSuccessCheckAt.value == 0 then false
    else now > lastSuccessCheckAt.value + config.versionCheckLastCheckMaxAgeMs
  }

  /** Both staleness tests turn true once and stay true as time passes. */
  lemma OutdatedStaysOutdated(earlier: int, later: int, lastVersionCheckAt: int, lastSuccessCheckAt: Option<int>, config: Config)
    requires earlier <= later
    ensures IsLastCheckOutdated(earlier, lastVersionCheckAt, config) ==> IsLastCheckOutdated(later, lastVersionCheckAt, config)
    ensures IsLastSuccessfulCheckOutdated(earlier, lastSuccessCheckAt, config) ==> IsLastSuccessfulCheckOutdated(later, lastSuccessCheckAt, config)
  {
  }

  /**
   * The timeout of the race: the regular one when an accurate answer is required (a recheck,
   * or a forced update), the initial one otherwise.
   */
  function CheckTimeoutMs(isRecheck: bool, isForceUpdateRequired: bool, config: Config): (ms: int)
    ensures isRecheck ==> ms == config.versionCheckRequestTimeoutMs
    ensures isForceUpdateRequired ==> ms == config.versionCheckRequestTimeoutMs
    ensures !isRecheck && !isForceUpdateRequired ==> ms == config.versionCheckInitialRequestTimeoutMs
  {
    if isRecheck || isForceUpdateRequired then config.versionCheckRequestTimeoutMs
    else config.versionCheckInitialRequestTimeoutMs
  }

  /** The request `check` makes of the library. */
  function CheckRequestFor(isRecheck: bool, isForceUpdateRequired: bool, config: Config): (request: CheckRequest)
    ensures request.isRecheck == isRecheck && request.isForceUpdateRequired == isForceUpdateRequired
    ensures 1 <= request.depth <= 3
    ensures request.timeoutMs == CheckTimeoutMs(isRecheck, isForceUpdateRequired, config)
  {
    CheckRequest(isRecheck, isForceUpdateRequired, ParseVersionDepth(config.versionCheckPolicy), CheckTimeoutMs(isRecheck, isForceUpdateRequired, config))
  }

  /** What `VersionCheck.needUpdate` resolves with when it finds the app's info. */
  datatype NeedUpdateResult = NeedUpdateResult(isNeeded: bool, currentVersion: string, latestVersion: string, storeUrl: string)

  /** How the race between the library call and the timeout settles. */
  datatype CheckRace =
    | LibraryResolved(value: Option<NeedUpdateResult>)
    | LibraryRejected(error: JsValue)
    | TimerFired

  /** The successful result of `check`. */
  datatype CheckOk = CheckOk(isUpdateNeeded: bool, currentVersion: string, latestVersion: string, versionUpdateUrl: string)

  /** The error `check` reports for a rejection: a version check error as it is, anything else as a failure. */
  function MapRejection(error: JsValue): (e: JsValue)
    ensures IsVersionCheckError(e)
    ensures IsVersionCheckError(error) ==> e == error
    ensures !IsVersionCheckError(error) ==> e == ErrorObject(VersionCheckFailure, Some("Error while checking app version"))
  {
    if IsVersionCheckError(error) then error
    else ErrorObject(VersionCheckFailure, Some("Error while checking app version"))
  }

  /**
   * `check`: the race outcome for the request built from the options. The timeout rejects
   * with a timeout error, a rejection is mapped as above, a library answer without the app's
   * info is a failure, and an answer with it is copied, the update URL overridden by the
   * configured one when that is set.
   */
  function Check(isRecheck: bool, isForceUpdateRequired: bool, config: Config, race: CheckRequest -> CheckRace): (r: Result<CheckOk, JsValue>)
    ensures r.Failure? ==> IsVersionCheckError(r.error)
    ensures r.Success? <==>
      race(CheckRequestFor(isRecheck, isForceUpdateRequired, config)).LibraryResolved? && race(CheckRequestFor(isRecheck, isForceUpdateRequired, config)).value.Some?
    ensures race(CheckRequestFor(isRecheck, isForceUpdateRequired, config)).TimerFired? ==>
      r == Failure(ErrorObject(VersionCheckTimeout, None))
    ensures r.Success? ==>
      var found := race(CheckRequestFor(isRecheck, isForceUpdateRequired, config)).value.value;
      && r.value.isUpdateNeeded == found.isNeeded
      && r.value.currentVersion == found.currentVersion
      && r.value.latestVersion == found.latestVersion
      && r.value.versionUpdateUrl == (if config.versionCheckUpdateUrlOverride != "" then config.versionCheckUpdateUrlOverride else found.storeUrl)
  {
    match race(CheckRequestFor(isRecheck, isForceUpdateRequired, config))
    case TimerFired => Failure(MapRejection(ErrorObject(VersionCheckTimeout, None)))
    case LibraryRejected(error) => Failure(MapRejection(error))
    case LibraryResolved(None) => Failure(ErrorObject(VersionCheckFailure, Some("No version info about the app")))
    case LibraryResolved(Some(found)) =>
      Success(CheckOk(found.isNeeded, found.currentVersion, found.latestVersion,
        if config.versionCheckUpdateUrlOverride != "" then config.versionCheckUpdateUrlOverride else found.storeUrl))
  }

  /** The error type of an error `check` reports is one of the three; a rejection's message is kept. */
  lemma CheckRejectionPassesThrough(isRecheck: bool, isForceUpdateRequired: bool, config: Config, race: CheckRequest -> CheckRace)
    requires race(CheckRequestFor(isRecheck, isForceUpdateRequired, config)).LibraryRejected?
    ensures var error := race(CheckRequestFor(isRecheck, isForceUpdateRequired, config)).error;
      IsVersionCheckError(error) ==> Check(isRecheck, isForceUpdateRequired, config, race) == Failure(error)
  {
  }

  /** `getDefaultVersionInfo`'s answer. */
  datatype DefaultVersionInfo = DefaultVersionInfo(currentVersion: string, versionUpdateUrl: Option<string>)

  /**
   * `getDefaultVersionInfo`: the installed version, with the configured update URL when set,
   * else the store URL when it could be fetched (`storeUrl`), else no URL.
   */
  function GetDefaultVersionInfo(currentVersion: string, storeUrl: Option<string>, config: Config): (r: DefaultVersionInfo)
    ensures r.currentVersion == currentVersion
    ensures config.versionCheckUpdateUrlOverride != "" ==> r.versionUpdateUrl == Some(config.versionCheckUpdateUrlOverride)
    ensures config.versionCheckUpdateUrlOverride == "" ==> r.versionUpdateUrl == storeUrl
  {
    if config.versionCheckUpdateUrlOverride != "" then DefaultVersionInfo(currentVersion, Some(config.versionCheckUpdateUrlOverride))
    else DefaultVersionInfo(currentVersion, storeUrl)
  }
}
