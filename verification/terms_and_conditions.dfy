/**
 * The terms and conditions service
 * (app/features/termsAndConditions/services/termsAndConditionsService.ts): the latest
 * version comes from the configuration.
 */
module TermsAndConditionsService {
  import opened AppConfig

  /** `isLatestTermsAndConditionsVersion`. */
  predicate IsLatestTermsAndConditionsVersion(version: int, config: Config) {
    version == config.termsAndConditionsVersion
  }

  /** `acceptTermsAndConditions`: the version accepted is always the latest one. */
  function AcceptTermsAndConditions(config: Config): (version: int)
    ensures IsLatestTermsAndConditionsVersion(version, config)
  {
    config.termsAndConditionsVersion
  }

  /** Exactly one version is the latest: the one accepting returns. */
  lemma LatestVersionIsAccepted(version: int, config: Config)
    ensures IsLatestTermsAndConditionsVersion(version, config) <==> version == AcceptTermsAndConditions(config)
  {
  }
}
