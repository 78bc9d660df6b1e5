/**
 * Version check data (app/features/versionCheck/services/types.ts and
 * app/features/versionCheck/state/types.ts), and the guard that recognises a
 * version check error among arbitrary rejection values.
 */
module VersionCheckTypes {
  import opened Wrappers
  import opened Js

  datatype VersionCheckErrorType = InvalidVersion | VersionCheckFailure | VersionCheckTimeout

  /** The string value of each `VersionCheckErrorType` member. */
  function ErrorTypeName(t: VersionCheckErrorType): string {
    match t
    case InvalidVersion => "INVALID_VERSION"
    case VersionCheckFailure => "VERSION_CHECK_FAILURE"
    case VersionCheckTimeout => "VERSION_CHECK_TIMEOUT"
  }

  /** A `VersionCheckError` object: its `type`, and its `message` when it has one. */
  function ErrorObject(t: VersionCheckErrorType, message: Option<string>): (e: JsValue)
    ensures e.Object? && "type" in e.props && e.props["type"] == Str(ErrorTypeName(t))
    ensures "message" in e.props <==> message.Some?
  {
    var props := map["type" := Str(ErrorTypeName(t))];
    if message.Some? then Object(props["message" := Str(message.value)]) else Object(props)
  }

  /**
   * `isVersionCheckError`: a truthy object with a `type` property equal to one of the three
   * error type names.
   */
  predicate IsVersionCheckError(error: JsValue) {
    if Truthy(error) && error.Object? && "type" in error.props then
      var t := error.props["type"];
      t == Str("INVALID_VERSION") || t == Str("VERSION_CHECK_FAILURE") || t == Str("VERSION_CHECK_TIMEOUT")
    else false
  }

  /**
   * The guard accepts exactly the objects whose `type` names an error type: any other
   * value, an object without `type` or with another `type` is refused, and the `message`
   * never matters.
   */
  lemma IsVersionCheckErrorExactly(error: JsValue, message: JsValue)
    ensures IsVersionCheckError(error) <==>
      error.Object? && "type" in error.props && exists t :: error.props["type"] == Str(ErrorTypeName(t))
    ensures error.Object? ==> IsVersionCheckError(Object(error.props["message" := message])) == IsVersionCheckError(error)
  {
    if IsVersionCheckError(error) {
      var s := error.props["type"].s;
      var t := if s == "INVALID_VERSION" then InvalidVersion else if s == "VERSION_CHECK_FAILURE" then VersionCheckFailure else VersionCheckTimeout;
      assert error.props["type"] == Str(ErrorTypeName(t));
    }
  }

  /** Every error object built from an error type passes the guard, with or without a message. */
  lemma ErrorObjectIsVersionCheckError(t: VersionCheckErrorType, message: Option<string>)
    ensures IsVersionCheckError(ErrorObject(t, message))
  {
  }

  /** The store-facing fields every version check result carries. */
  datatype VersionInfo = VersionInfo(
    isUpdateNeeded: bool,
    currentVersion: Option<string>,
    latestVersion: Option<string>,
    versionUpdateUrl: Option<string>)

  const NoUpdateInfo := VersionInfo(false, None, None, None)

  /** `VersionCheckResult` of the store, one case per `VersionCheckStatus`. */
  datatype VersionCheckResult =
    | Succeeded(info: VersionInfo, lastVersionCheckAt: int, lastSuccessCheckAt: int)
    | Failed(info: VersionInfo, lastVersionCheckAt: int)
    | Skipped(info: VersionInfo)
    | Disabled(info: VersionInfo)

  /** The options the service's `check` runs with, and what it derives from them. */
  datatype CheckRequest = CheckRequest(isRecheck: bool, isForceUpdateRequired: bool, depth: int, timeoutMs: int)
}
