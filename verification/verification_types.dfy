/**
 * The verification result taxonomy (app/features/verification/state/types.ts).
 */
module VerificationTypes {
  import opened Wrappers
  import opened DateStrings

  datatype InvalidReason =
    | IssuerNotTrusted
    | IssuerPublicKeyInvalid
    | SignatureInvalid
    | CredentialExpired
    | CredentialNotActive

  /** The string value of the `InvalidReason` enum member. */
  function InvalidReasonName(reason: InvalidReason): string {
    match reason
    case IssuerNotTrusted => "IssuerNotTrusted"
    case IssuerPublicKeyInvalid => "IssuerPublicKeyInvalid"
    case SignatureInvalid => "SignatureInvalid"
    case CredentialExpired => "CredentialExpired"
    case CredentialNotActive => "CredentialNotActive"
  }

  /**
   * The date of birth as split on '-': `month` and `day` are absent when the
   * string holds fewer than two dashes.
   */
  datatype DobStrings = DobStrings(year: string, month: Option<string>, day: Option<string>)

  datatype VerificationDetails = VerificationDetails(
    familyName: Option<string>,
    givenName: string,
    dob: DobStrings,
    expiry: DateStrings)

  /**
   * Exactly one of the four outcomes. An `Invalid` result may carry the credential's
   * expiry and how far it lies from the verification time (in milliseconds).
   */
  datatype VerificationResult =
    | Valid(details: VerificationDetails)
    | Invalid(failureReason: InvalidReason, expiry: Option<DateStrings>, expiredDurationMs: Option<nat>)
    | CannotRead
    | CannotValidate
  {
    /** The string value of the `VerificationStatus` enum member. */
    function StatusName(): string {
      match this
      case Valid(_) => "Valid"
      case Invalid(_, _, _) => "Invalid"
      case CannotRead => "CannotRead"
      case CannotValidate => "CannotValidate"
    }
  }
}
