/**
 * The interface of the credential verification library the verifier delegates to:
 * only the shapes of its answers. Decoding, signature checking and issuer resolution
 * happen inside the library and are represented by an oracle function.
 */
module CwtVerifier {
  import opened Wrappers
  import opened Js

  datatype VerifyErrorType = NetworkError | TimeoutError | UnknownError

  datatype VerifyFailureReasonType =
    | PayloadInvalid
    | UnsupportedAlgorithm
    | Expired
    | IssuerNotTrusted
    | IssuerPublicKeyInvalid
    | NotActive
    | SignatureInvalid

  /** The decoded claims: `exp` in seconds since the epoch and the credential subject record. */
  datatype CwtPayload = CwtPayload(exp: Option<int>, credentialSubject: Option<map<string, JsValue>>)

  datatype VerifyResponse = VerifyResponse(
    verified: bool,
    reason: Option<VerifyFailureReasonType>,
    payload: Option<CwtPayload>)

  /** What the library's `verify` resolves to: an error, or a response. */
  datatype SdkOutcome = SdkError(errorType: VerifyErrorType) | SdkResponse(response: VerifyResponse)
}
