/**
 * Observable steps of the actions: store dispatches, navigation, sound, vibration,
 * browser, splash screen and calls into external services. Each action returns the
 * steps it takes, in order.
 */
module AppEffects {
  import opened VerificationTypes
  import opened VersionCheckTypes
  import opened Analytics

  /** Routes of the root navigator (app/common/navigation/types.ts). */
  datatype Route =
    | Setup
    | Onboarding
    | VersionUpdate
    | TermsAndConditions
    | Home
    | Scan
    | VerifyScreen
    | VerificationProgress
    | VerificationSuccess
    | VerificationCannotRead
    | VerificationCannotValidate
    | VerificationInvalid
    | ConnectionRequired

  datatype Sound = ValidSound | InvalidSound
  datatype Vibration = ValidVibration | InvalidVibration

  datatype Effect =
    | VerifyResultDispatched(result: VerificationResult)
    | ScanEventDispatched(result: VerificationResult, processedInMs: int)
    | NavigateReplace(route: Route)
    | Navigate(route: Route)
    | NavigateReset(route: Route)
    | PlaySound(sound: Sound)
    | Vibrate(vibration: Vibration)
    | OpenBrowser(url: string)
    | HideSplashScreen
    | InitialiseAudio
    | CacheRefreshSetUp
    | VersionCheckRequested(request: CheckRequest)
    | VersionCheckResultDispatched(versionCheckResult: VersionCheckResult)
    | AnalyticsSetUp
    | AnalyticsRecorded(record: AnalyticsRecord)
  {
    predicate IsNavigation() {
      NavigateReplace? || Navigate? || NavigateReset?
    }
  }
}
