# NZ COVID Pass verifier — a Dafny model of its core

The NZ COVID Pass verifier is a React Native app. It scans a QR code of the form
`NZCP:/1/<base32>`, verifies the credential it carries and shows one of four outcomes:
valid, invalid, cannot read or cannot validate. It keeps a local cache of the trusted
issuers' key documents so that it can verify offline. It checks the store for a newer app
version and can block the app until the user updates. At start-up it routes the user through
onboarding and the terms and conditions.

This project models the app's decision logic and its state updates:

- **The verification pipeline** (`VerificationService`, `Base32`, `Strings`, `DateStrings`):
  - parsing the `NZCP:/1/` envelope and decoding the body as RFC 4648 section 6 base32;
  - mapping the credential library's answer to the four outcomes;
  - checking the credential subject fields and formatting the expiry date.
- **The verification thunks and slice** (`VerificationActions`, `VerificationState`):
  - timing, the abort guard, storing the result, analytics, navigation, and sound and vibration feedback.
- **The issuer key cache** (`IssuerCachingState`, `IssuerCachingService`, `IssuerCachingActions`):
  - a TTL map whose `get` hides expired entries and whose `set` writes through to the store;
  - a debounced refresh of every trusted issuer;
  - a sweep that deletes expired entries;
  - the selector for the newest update time.
- **The home screen's cache freshness classifier** (`CacheStatus`).
- **The version check** (`VersionCheckTypes`, `VersionCheckService`, `VersionCheckState`, `VersionCheckActions`):
  - staleness tests, the check policy and error classification;
  - the branchy decision of `doVersionCheck`, and the reducer that stores its result.
- **Start-up and the small slices** (`SetupActions`, `TermsAndConditionsService`, `Analytics`, `ScanningState`, `BarcodeFinder`, `SettingsState`).

External inputs are parameters:

- `Date.now()` becomes an explicit `now` in milliseconds.
- The device's local calendar is a function from milliseconds to a calendar date.
- The configuration is a `Config` value (`AppConfig`). The configuration module itself is not part of this model.
- The credential library's `verify` is an oracle returning an error kind, or a response with a verified flag, a reason and the claims.
- The issuer resolver is an oracle from issuer to document.
- The version check library is an oracle: for each request, how the race between the library call and the timeout settles.

Redux slices are classes whose methods are the reducer cases. Thunks are methods that update those classes. Each thunk returns the ordered trace of its observable steps (`AppEffects.Effect`): store dispatches, navigation, sound, vibration, browser, splash screen and analytics calls.

## Model

| member | source | states |
|---|---|---|
| VerificationService.MapSdkError | app/features/verification/services/verificationService.ts:34-42 | Network and timeout errors are CannotValidate; an unknown error is CannotRead; both directions hold. |
| VerificationService.MapVerifiedFail | app/features/verification/services/verificationService.ts:44-72 | Never Valid or CannotValidate. CannotRead exactly for PayloadInvalid, UnsupportedAlgorithm or no reason. Otherwise Invalid with the matching reason (NotActive becomes CredentialNotActive). Only CredentialExpired carries the expiry and the expired duration. |
| VerificationService.InvalidReasonForInjective | app/features/verification/services/verificationService.ts:53-67 | Distinct library reasons that make a credential invalid give distinct invalid reasons. |
| VerificationService.ParsePayload | app/features/verification/services/verificationService.ts:74-100 | Succeeds exactly on a well-formed envelope: at least three '/'-pieces, prefix exactly "NZCP:", version exactly "1", non-empty body that decodes. It then returns the decoded body. Every failure is CannotRead. |
| VerificationService.ParsePayloadOfEncoding | app/features/verification/services/verificationService.ts:74-100 | For any non-empty bytes b, "NZCP:/1/" + base32(b) parses to exactly b. |
| VerificationService.ParsePayloadIgnoresTrailingPieces | app/features/verification/services/verificationService.ts:75-83 | Pieces after the body are ignored, not rejected. |
| VerificationService.ParsePayloadDetails | app/features/verification/services/verificationService.ts:102-126 | CannotRead exactly when familyName is truthy and not a string, or givenName is not a string, or dob is not a string. Otherwise the given name is copied and the family name is kept when it is a string. The dob is split on '-'. |
| VerificationService.SplitDobOfIsoDate | app/features/verification/services/verificationService.ts:119-124 | A "YYYY-MM-DD" date of birth splits into year, month and day, in that order. |
| VerificationService.VerifyMalformedEnvelope | app/features/verification/services/verificationService.ts:142-148 | A malformed envelope gives CannotRead, and the library is never consulted: any two oracles give the same result. |
| VerificationService.VerifyConsultsLibraryOnDecodedBytes | app/features/verification/services/verificationService.ts:145-160 | The result depends on the library only through its answer for the decoded bytes. |
| VerificationService.VerifyCannotValidate | app/features/verification/services/verificationService.ts:162-165 | CannotValidate exactly when the envelope parses and the library reports a network or timeout error. |
| VerificationService.VerifyMissingExpiryFailsClosed | app/features/verification/services/verificationService.ts:167-170 | A response without exp, or with exp 0, is Invalid(CredentialExpired) with no expiry, whatever its verified flag and reason. |
| VerificationService.VerifyExpired | app/features/verification/services/verificationService.ts:172-178 | An expired verdict carries the expiry strings of exp and its distance from now. |
| VerificationService.VerifyValid | app/features/verification/services/verificationService.ts:142-191 | Valid exactly when every stage passes: parse, no library error, non-zero exp, verified, subject fields well typed. The details are the parsed fields plus the expiry strings derived from exp. |
| Strings.Split | app/features/verification/services/verificationService.ts:75 | `split` gives at least one piece, and no piece contains the separator. |
| Strings.JoinSplit | app/features/verification/services/verificationService.ts:75 | Joining the pieces of a split with the separator gives the input back. |
| Base32.Decode | app/features/verification/services/verificationService.ts:95-99 | Fails exactly when a character other than trailing '=' padding is outside A-Z2-7. Otherwise it yields floor(5n/8) bytes for the n symbols before the padding. |
| Base32.DecodeEncode | app/features/verification/services/verificationService.ts:95-99 | Decoding the RFC 4648 section 6 encoding of any bytes gives those bytes back. |
| Base32.DecodePaddedEncode | app/features/verification/services/verificationService.ts:95-99 | Trailing '=' padding after an encoding does not change what it decodes to. |
| DateStrings.NatToDecimal | app/features/verification/utilities/getDateStrings.ts:3 | The decimal numeral is non-empty and all digits, and it is one digit exactly for values below 10. |
| DateStrings.TwoDigitDayOrMonthRoundTrip | app/features/verification/utilities/getDateStrings.ts:3 | Every value 0..99 becomes exactly two digits that read back as the value. |
| DateStrings.FourDigitYear | app/features/verification/utilities/getDateStrings.ts:14 | The unpadded year of years 1000..9999 is four digits that read back as the year. |
| DateStrings.GetDateStringsOfCalendarDate | app/features/verification/utilities/getDateStrings.ts:10-16 | The day string reads back as the day of the month, the month string as the 1-based month, each exactly two digits. |
| DateStrings.GetDateStringsInjective | app/features/verification/utilities/getDateStrings.ts:10-16 | Distinct dates (years 1000..9999) give distinct date strings. |
| VerificationActions.ProcessedInMs | app/features/verification/actions/index.ts:24-30 | The processing time is never negative, is at least end - start, and is either 0 or end - start. |
| VerificationActions.AbortedVerificationHasNoEffects | app/features/verification/actions/index.ts:32-35 | An aborted request stores nothing, records nothing, navigates nowhere and gives no feedback. |
| VerificationActions.VerificationEffectsOrder | app/features/verification/actions/index.ts:37-72 | The steps run in this order: result stored; analytics event with the same result and processing time; exactly one navigation, to the outcome's screen. A sound plays only when audio is on and a vibration only when vibration is on. Only Valid uses the VALID feedback. |
| VerificationActions.ResultRouteInjective | app/features/verification/actions/index.ts:47-72 | Each status has its own result screen. |
| VerificationActions.DoVerifyPayload | app/features/verification/actions/index.ts:23-73 | Its trace is exactly the steps above for the service's result. The slice holds that result unless the request was aborted, and the loading flag is untouched. |
| VerificationActions.DispatchVerifyPayload | app/features/verification/actions/index.ts:23-73 | The thunk runs pending, then its body, then fulfilled, or rejected when aborted. Afterwards loading is over and the stored result is the new one, or none when aborted. |
| VerificationActions.CancelVerificationEffects | app/features/verification/actions/index.ts:75-77 | Cancelling navigates to Scan. |
| VerificationActions.CloseVerificationResultEffects | app/features/verification/actions/index.ts:80-86 | One navigation: to Home exactly when navigateHome is true (it defaults to false), otherwise to Scan. |
| VerificationState.Verification.constructor | app/features/verification/state/slice.ts:5-8 | Not loading, and no result. |
| VerificationState.Verification.Pending | app/features/verification/state/slice.ts:14-17 | Loading, and the result cleared. |
| VerificationState.Verification.Rejected | app/features/verification/state/slice.ts:18-21 | Not loading, and the result cleared. |
| VerificationState.Verification.Fulfilled | app/features/verification/state/slice.ts:22-24 | Not loading, and the result untouched. |
| VerificationState.Verification.SetVerifyResult | app/features/verification/state/slice.ts:25-27 | The result becomes the payload; the loading flag is untouched. |
| Analytics.ScanEventRecord | app/features/analytics/actions/index.ts:5-27 | Records nothing when analytics is disabled. Valid records SCAN_VALID with only the processing time. Anything else records SCAN_INVALID with its reason and the processing time, forwarded unchanged. |
| Analytics.ScanFailureReasonInjective | app/features/analytics/actions/index.ts:17-20 | The reason attribute tells failures apart: the invalid reason for Invalid, the status name otherwise. |
| Analytics.FirstUseRecord | app/features/analytics/actions/index.ts:29-38 | FIRST_USE is recorded exactly when analytics is enabled and the app has not launched before. |
| IssuerCachingState.Lookup | app/features/issuerCaching/actions/index.ts:85-89 | Gives an entry exactly when the map exists and holds the key, and then it is that key's entry. |
| IssuerCachingState.IssuerCaching.constructor | app/features/issuerCaching/state/slice.ts:6 | No cached issuers and no refresh timestamp. |
| IssuerCachingState.IssuerCaching.SetCachedIssuer | app/features/issuerCaching/state/slice.ts:12-17 | Inserts or overwrites exactly one key, creating the map if needed. Every other key and the refresh time are unchanged. |
| IssuerCachingState.IssuerCaching.DeleteCachedIssuer | app/features/issuerCaching/state/slice.ts:21-23 | Removes exactly one key and leaves the others. It does nothing when the map is absent. |
| IssuerCachingState.IssuerCaching.SetIssuerCacheUpdated | app/features/issuerCaching/state/slice.ts:18-20 | Changes only the refresh timestamp. |
| IssuerCachingState.MaxUpdatedTimestamp | app/features/issuerCaching/state/slice.ts:47-49 | The fold seeded with 0 is at least 0 and at least every entry's timestamp (missing counts as 0). It is 0 or some entry's timestamp. |
| IssuerCachingState.SelectMaximumCachedIssuersUpdatedTimestamp | app/features/issuerCaching/state/slice.ts:36-50 | Absent exactly for a missing or empty map. Otherwise it is the maximum above. |
| IssuerCachingState.SelectAfterSet | app/features/issuerCaching/state/slice.ts:36-50 | Writing an entry at least as new as all others makes its timestamp the selected maximum. |
| IssuerCachingService.CacheGet | app/features/issuerCaching/services/issuerCachingService.ts:49-55 | Nothing exactly when there is no entry or ttl < now (an entry with ttl == now is returned). Otherwise it is the entry's value. |
| IssuerCachingService.GetAfterSet | app/features/issuerCaching/services/issuerCachingService.ts:43-55 | A value set at time t is returned exactly while now <= t + MAX_AGE. It is returned at t itself when MAX_AGE >= 0. |
| IssuerCachingService.CacheSet | app/features/issuerCaching/services/issuerCachingService.ts:43-48 | Always returns true. It writes {value, ttl = now + MAX_AGE, updatedTimestamp = now} under the key and changes nothing else. |
| IssuerCachingService.RefreshDebounced | app/features/issuerCaching/services/issuerCachingService.ts:80-85 | A refresh strictly within MIN_AGE of the last one is skipped; one at last + MIN_AGE is not. |
| IssuerCachingService.RefreshedEntries | app/features/issuerCaching/services/issuerCachingService.ts:91-95 | After a forced refresh, every listed issuer that resolves holds a fresh entry with its document. Every other key keeps its old entry. |
| IssuerCachingService.RefreshCachedIssuers | app/features/issuerCaching/services/issuerCachingService.ts:77-98 | Skipped, fetching nothing and touching nothing, exactly when now < last + MIN_AGE (last defaults to 0). Otherwise it asks for every trusted issuer, writes what resolves, and returns Completed. |
| IssuerCachingActions.SweepInvisibleToGet | app/features/issuerCaching/actions/index.ts:67-73 | The sweep only removes entries that get already hides: lookups at the same time agree before and after it. Unexpired entries are kept unchanged. |
| IssuerCachingActions.SweepExpired | app/features/issuerCaching/actions/index.ts:66-73 | Deleting key by key over a snapshot leaves exactly the entries with ttl >= now. It does nothing without a map. |
| IssuerCachingActions.StoreCacheGet | app/features/issuerCaching/actions/index.ts:83-89 | The store-backed get reads the current store and returns an entry exactly when one is present with ttl >= now. |
| IssuerCachingActions.StoreCacheSetThenGet | app/features/issuerCaching/actions/index.ts:83-94 | A store-backed set followed by a get at the same time returns the value set, when MAX_AGE >= 0. |
| IssuerCachingActions.DoRefreshIssuerCache | app/features/issuerCaching/actions/index.ts:51-78 | It uses the stored refresh time. A skipped refresh deletes nothing and leaves the timestamp. A completed refresh leaves the swept refreshed cache, and only then sets the timestamp to now. |
| IssuerCachingActions.CompletedRefreshContents | app/features/issuerCaching/actions/index.ts:51-78 | After a completed refresh, every trusted issuer that resolved is readable. Every other key keeps its entry if unexpired and is removed otherwise. |
| IssuerCachingActions.RefreshTwice | app/features/issuerCaching/actions/index.ts:54-60 | A refresh that starts after a completed one, and within MIN_AGE of it, fetches nothing. |
| IssuerCachingActions.OnNetworkStateChange | app/features/issuerCaching/actions/index.ts:37-42 | A refresh runs only when the internet is reported reachable; otherwise nothing changes. When it runs, it is skipped exactly when the last refresh is younger than MIN_AGE, and then nothing changes. A completed one leaves the refreshed cache swept of expired entries and records now as the refresh time. |
| CacheStatus.WholeDays | app/features/home/utilities/index.ts:44 | Whole days are truncated toward zero: for a span t >= 0, d days with d*24h <= t < (d+1)*24h; for t < 0, (d-1)*24h < t <= d*24h. |
| CacheStatus.DaysBelow | app/features/home/utilities/index.ts:44-57 | For k >= 1, fewer than k whole days remain exactly when less than k*24h remains. |
| CacheStatus.GetCurrentCacheStatus | app/features/home/utilities/index.ts:39-62 | No or zero last update gives needsImmediateUpdate, due now. Otherwise the cache is invalid at last + MAX_AGE, and the time left decides: under 1 day immediate, 1 to 6 days soon, 7 to 12 days recently updated (with the last update), 13 or more up to date. |
| CacheStatus.UrgencyGrowsWithTime | app/features/home/utilities/index.ts:39-62 | As time passes the status never gets less urgent. |
| CacheStatus.UrgencyFallsWithNewerUpdate | app/features/home/utilities/index.ts:39-62 | A more recent update is never more urgent, and a missing update is the most urgent. |
| VersionCheckService.ParseVersionDepth | app/features/versionCheck/services/versionCheckService.ts:45-56 | The depth is always 1, 2 or 3. It is 1 exactly for MAJOR and 2 exactly for MINOR. |
| VersionCheckService.UnknownPolicyIsPatch | app/features/versionCheck/services/versionCheckService.ts:53-54 | Any other policy compares like PATCH. |
| VersionCheckService.OnlyTrueEnablesVersionCheck | app/features/versionCheck/services/versionCheckService.ts:61-63 | Enabled only by the value true: a truthy string or number does not enable the check. |
| VersionCheckService.OutdatedStaysOutdated | app/features/versionCheck/services/versionCheckService.ts:69-87 | Once either staleness test holds, it keeps holding as time passes. |
| VersionCheckService.CheckTimeoutMs | app/features/versionCheck/services/versionCheckService.ts:135-139 | The regular timeout applies on a recheck or a forced update, the initial timeout otherwise. |
| VersionCheckService.CheckRequestFor | app/features/versionCheck/services/versionCheckService.ts:120-139 | The library request carries the options, a depth of 1 to 3 and the timeout above. |
| VersionCheckService.MapRejection | app/features/versionCheck/services/versionCheckService.ts:147-155 | A version check error passes through unchanged; anything else becomes VERSION_CHECK_FAILURE. The result is always a version check error. |
| VersionCheckService.Check | app/features/versionCheck/services/versionCheckService.ts:114-178 | Every error is a version check error, and a timeout gives VERSION_CHECK_TIMEOUT. It succeeds exactly when the library resolves with app info. The result then copies the flag and versions, and the update URL is the override when set, else the store URL. |
| VersionCheckService.CheckRejectionPassesThrough | app/features/versionCheck/services/versionCheckService.ts:147-158 | A rejection that is a version check error is reported as it is. |
| VersionCheckService.GetDefaultVersionInfo | app/features/versionCheck/services/versionCheckService.ts:95-108 | The current version is kept. The update URL is the override when set, else the store URL if it could be fetched, else none. |
| VersionCheckTypes.ErrorObject | app/features/versionCheck/services/types.ts:13-16 | A version check error object has the type's name under `type`, and a `message` exactly when one is given. |
| VersionCheckTypes.IsVersionCheckErrorExactly | app/features/versionCheck/services/types.ts:21-31 | True exactly for objects whose `type` names one of the three error types. It is false for other values, for objects without `type` and for other types. The message never matters. |
| VersionCheckTypes.ErrorObjectIsVersionCheckError | app/features/versionCheck/services/types.ts:21-31 | Every error object built from an error type passes the guard. |
| VersionCheckState.VersionCheck.constructor | app/features/versionCheck/state/slice.ts:6-8 | Last checked at 0, and no last success. |
| VersionCheckState.VersionCheck.SetVersionCheckResult | app/features/versionCheck/state/slice.ts:14-28 | Copies isUpdateNeeded, currentVersion and versionUpdateUrl. Success writes both timestamps; Failure writes only the check time; the other results write neither. latestVersion is never written. |
| VersionCheckActions.CheckedInfo | app/features/versionCheck/actions/index.ts:73-89 | The stored fields of a successful check are the check's own. |
| VersionCheckActions.DoVersionCheck | app/features/versionCheck/actions/index.ts:21-93 | An update is needed exactly when the trace ends in its third effect, a navigation reset. Each outcome with its stores and navigation resets: Disabled, and a non-outdated recheck Skipped, with no update needed and no effects. Otherwise the check is forced exactly when the last success is outdated. An error is a stored failure that resets to ConnectionRequired when forced, and an unstored failure otherwise. A needed update is a stored failure that resets to VersionUpdate. Anything else is a stored success at now. |
| VersionCheckActions.CheckThenRecheck | app/features/versionCheck/actions/index.ts:34-42 | A recheck within MIN_AGE after a stored success or update prompt is Skipped. |
| VersionCheckActions.ForceVersionUpdateEffects | app/features/versionCheck/actions/index.ts:9-16 | Opens the browser, with the stored URL, exactly when a non-empty update URL is stored. |
| SetupActions.InitialRoute | app/features/setup/actions/index.ts:24-35 | Onboarding exactly when onboarding is incomplete. TermsAndConditions exactly when onboarded with terms that are not the latest. Home exactly when onboarded with the latest terms. |
| SetupActions.AcceptedTermsLeadHome | app/features/setup/actions/index.ts:24-35 | After accepting the terms, an onboarded user starts at Home. |
| SetupActions.AfterVersionCheck | app/features/setup/actions/index.ts:39-54 | The splash screen is hidden once and last. An update prompt suppresses analytics and the initial route. Otherwise analytics set-up and first use happen only when enabled, and the initial route comes just before the splash screen is hidden. |
| SetupActions.DoSetupApp | app/features/setup/actions/index.ts:19-55 | Cache refresh set-up, then audio, then the version check (never a recheck), then the steps above. The check's outcome is that of DoVersionCheck with no recheck: Disabled with no effects when checks are off; otherwise the request first, forced exactly when the last success is outdated, and each failure or success with its stored state. An update is needed exactly when the check ended with a navigation reset. |
| SetupActions.SetupOrder | app/features/setup/actions/index.ts:19-55 | In the whole start-up trace, cache refresh set-up is awaited before the version check. The splash screen is hidden once and last. An update prompt means no initial-route navigation and no analytics. |
| TermsAndConditionsService.AcceptTermsAndConditions | app/features/termsAndConditions/services/termsAndConditionsService.ts:7-10 | The accepted version is always the latest. |
| TermsAndConditionsService.LatestVersionIsAccepted | app/features/termsAndConditions/services/termsAndConditionsService.ts:3-10 | A version is the latest exactly when it is the configured version that accepting returns. |
| ScanningState.Scanning.constructor | app/features/scanning/state/slice.ts:5-8 | No payload, and the front camera alert enabled. |
| ScanningState.Scanning.ScanPending | app/features/scanning/state/slice.ts:15-17 | Clears the payload only. |
| ScanningState.Scanning.SetPayload | app/features/scanning/state/slice.ts:18-20 | Stores exactly the payload and leaves the flag. |
| ScanningState.Scanning.DisableFrontCameraAlerts | app/features/scanning/state/slice.ts:21-23 | Sets the flag whatever it was, so it is idempotent, and leaves the payload. |
| ScanningState.ApplyCases | app/features/scanning/state/slice.ts:14-24 | Any sequence of reducer cases, applied in order, leaves the state given by AlertDisabledAfter and PayloadAfter; a disabled alert stays disabled. |
| ScanningState.AlertDisabledAfterCases | app/features/scanning/state/slice.ts:21-23 | After any sequence of cases the alert is disabled exactly when it was disabled before or some case disabled it. No case re-enables it. |
| ScanningState.PayloadUntouched | app/features/scanning/state/slice.ts:21-23 | Cases that only disable the alert leave the payload as it was. |
| ScanningState.PayloadOfLastTouch | app/features/scanning/state/slice.ts:15-20 | The payload is set by the last case that touches it: the payload scanned last, or none after a pending scan. |
| BarcodeFinder.GetBarcodeFinderSize | app/features/scanning/utilities/index.ts:9-18 | The side fits both padded dimensions and equals one of them. |
| BarcodeFinder.FinderSizeIsLargestFit | app/features/scanning/utilities/index.ts:9-18 | Every side that fits is at most the finder size, so it is the minimum. |
| BarcodeFinder.FinderSizeSymmetric | app/features/scanning/utilities/index.ts:17 | Swapping width and height does not change the size. |
| BarcodeFinder.FinderSizePadding | app/features/scanning/utilities/index.ts:11-17 | Padding increased by k takes exactly 2k off the size. |
| SettingsState.Settings.constructor | app/features/settings/state/slice.ts:5-8 | Back camera, audio off. |
| SettingsState.Settings.ToggleCameraType | app/features/settings/state/slice.ts:15-17 | Negates isFrontCamera, so two toggles restore it, and leaves the rest. |
| SettingsState.Settings.ToggleAudioFulfilled | app/features/settings/state/slice.ts:18-20 | isAudioOn becomes the payload; the rest is unchanged. |

## Left out

- The credential library is an oracle. That covers CWT/COSE decoding, signature checking, issuer resolution, `cacheIssuer` and its cache keys; the model assumes the resolver stores a document under the issuer's name.
- The `base32-decode` package is not part of this model. An RFC 4648 section 6 decoder stands in for it: it strips trailing '=', rejects any other character outside A-Z2-7 and keeps the whole bytes of the bit stream.
- The configuration module is not part of this model; its values are a parameter.
- VerificationService.VerifyExpired: the expired duration is the absolute distance in milliseconds. The source divides it into fractional days, and floating point is not modelled.
- A credential subject read from a payload without `vc` throws a TypeError in the source. The model reads it as an absent subject, which gives CannotRead.
- A falsy family name that is not a string (0, false, null) becomes "no family name"; the model does not carry the raw value.
- Dates are whole milliseconds. `fromUnixTime` and the local calendar are the `localDate` parameter.
- CacheStatus.GetCurrentCacheStatus: whole days are truncated 24-hour periods. `differenceInDays` counts local calendar days and corrects for daylight-saving changes.
- Each operation reads the clock once. The source reads it several times: around and inside `verify`, at each cache write, in the sweep, and for each version check timestamp.
- IssuerCachingService.RefreshCachedIssuers: issuers are resolved one after another in list order. The source resolves them concurrently with `Promise.all`, and resolution failures are ignored.
- VersionCheckService.Check: the race between the library and the timer, and the timer itself, are folded into the `race` oracle.
- The optional provider URL override of the version check library (`buildVersionProvider`) is network I/O and is not modelled.
- `createAsyncThunk` plumbing is not modelled: abort signals (a boolean input here), `unwrapResult` throwing on rejection, and the NetInfo subscription (only its callback is modelled).
- SetupActions.AfterVersionCheck: first use is recorded right after analytics set-up. In the source it is dispatched when set-up resolves, so it may come after the navigation.
- The `doSetupAnalytics` thunk's own enabled check is not modelled separately: start-up dispatches it only when analytics is enabled.
- BarcodeFinder.GetBarcodeFinderSize: layout sizes are integers; the source works on floating-point numbers.
- The settings slice has no reducer case for vibration. `isVibrationOn` starts false and no modelled operation changes it.
- Audio, vibration, the browser, splash screen, navigation, analytics recording, persistence, i18n and every screen and component are outside the model. Only the calls the core makes to them appear, as trace entries.
- The onboarding, terms-and-conditions and analytics slices are single-field latches with nothing to prove beyond assignment. They appear only as inputs to start-up.
- IssuerCachingActions.RefreshTwice: only refreshes that run one after the other are modelled. In the source a second dispatch made while the first is still awaiting its `Promise.all` reads the old refresh time, so both fetch.
