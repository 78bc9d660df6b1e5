/**
 * The version check slice (app/features/versionCheck/state/slice.ts): the times of the last
 * check and of the last successful one, and what the last stored result said.
 */
module VersionCheckState {
  import opened Wrappers
  import opened VersionCheckTypes

  class VersionCheck {
    var lastVersionCheckAt: int
    var lastSuccessCheckAt: Option<int>
    var isUpdateNeeded: Option<bool>
    var currentVersion: Option<string>
    var latestVersion: Option<string>
    var versionUpdateUrl: Option<string>

    /** The initial state: last checked at time 0, and nothing else known. */
    constructor ()
      ensures lastVersionCheckAt == 0 && lastSuccessCheckAt == None
      ensures isUpdateNeeded == None && currentVersion == None && latestVersion == None && versionUpdateUrl == None
    {
      lastVersionCheckAt, lastSuccessCheckAt := 0, None;
      isUpdateNeeded, currentVersion, latestVersion, versionUpdateUrl := None, None, None, None;
    }

    /**
     * `doSetVersionCheckResult`: copies the update flag, the installed version and the update
     * URL of any result; a success records both times, a failure only the time of the check,
     * and the other results no time. The latest version is never stored.
     */
    method SetVersionCheckResult(payload: VersionCheckResult)
      modifies this
      ensures isUpdateNeeded == Some(payload.info.isUpdateNeeded)
      ensures currentVersion == payload.info.currentVersion
      ensures versionUpdateUrl == payload.info.versionUpdateUrl
      ensures latestVersion == old(latestVersion)
      ensures lastVersionCheckAt == if payload.Succeeded? || payload.Failed? then payload.lastVersionCheckAt else old(lastVersionCheckAt)
      ensures lastSuccessCheckAt == if payload.Succeeded? then Some(payload.lastSuccessCheckAt) else old(lastSuccessCheckAt)
    {
      isUpdateNeeded := Some(payload.info.isUpdateNeeded);
      currentVersion := payload.info.currentVersion;
      versionUpdateUrl := payload.info.versionUpdateUrl;
      if payload.Succeeded? {
        lastSuccessCheckAt := Some(payload.lastSuccessCheckAt);
        lastVersionCheckAt := payload.lastVersionCheckAt;
        return;
      }
      if payload.Failed? {
        lastVersionCheckAt := payload.lastVersionCheckAt;
        return;
      }
    }
  }
}
