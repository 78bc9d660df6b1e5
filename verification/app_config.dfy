/**
 * The build-time configuration the core reads (`config` in the source). The
 * configuration module itself is not part of this model; its values are parameters.
 */
module AppConfig {
  import opened Js

  datatype Config = Config(
    trustedIssuerList: seq<string>,
    issuerCacheMaxAgeMs: int,
    issuerCacheRefreshMinAgeMs: int,
    termsAndConditionsVersion: int,
    analyticsEnabled: bool,
    /** Compared with `=== true`, so kept as the raw value. */
    versionCheckEnabled: JsValue,
    versionCheckPolicy: string,
    versionCheckLastCheckMinAgeMs: int,
    versionCheckLastCheckMaxAgeMs: int,
    versionCheckRequestTimeoutMs: int,
    versionCheckInitialRequestTimeoutMs: int,
    /** The empty string stands for an unset (falsy) override. */
    versionCheckUpdateUrlOverride: string)
}
