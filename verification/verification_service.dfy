/**
 * The payload verification pipeline
 * (app/features/verification/services/verificationService.ts).
 *
 * `Verify` parses the `NZCP:/1/<base32>` envelope, hands the bytes to the credential
 * library (the `sdkVerify` oracle), then classifies the library's answer into the four
 * outcomes. Time is the explicit `nowMs`; the device's local calendar is `localDate`,
 * mapping milliseconds since the epoch to a calendar date.
 */
module VerificationService {
  import opened Wrappers
  import opened Js
  import opened Strings
  import opened Base32
  import opened DateStrings
  import opened VerificationTypes
  import Cwt = CwtVerifier

  const NZCP_PREFIX: string := "NZCP:"
  const NZCP_VERSION: string := "1"

  /** The credential subject fields the verifier reads. */
  datatype VerifyResultDetails = VerifyResultDetails(familyName: Option<string>, givenName: string, dob: DobStrings)

  /** The `i`-th piece of a split, with a missing piece read as the (equally falsy) empty string. */
  function Piece(parts: seq<string>, i: nat): string {
    if i < |parts| then parts[i] else ""
  }

  function OptionalPiece(parts: seq<string>, i: nat): Option<string> {
    if i < |parts| then Some(parts[i]) else None
  }

  /** `mapSdkError`: transport failures cannot be validated, anything else cannot be read. */
  function MapSdkError(errorType: Cwt.VerifyErrorType): (r: VerificationResult)
    ensures r == CannotValidate <==> errorType == Cwt.NetworkError || errorType == Cwt.TimeoutError
    ensures r == CannotRead <==> errorType == Cwt.UnknownError
  {
    match errorType
    case NetworkError => CannotValidate
    case TimeoutError => CannotValidate
    case UnknownError => CannotRead
  }

  /** The `InvalidReason` a library failure reason stands for, if any. */
  function InvalidReasonFor(reason: Cwt.VerifyFailureReasonType): Option<InvalidReason> {
    match reason
    case PayloadInvalid => None
    case UnsupportedAlgorithm => None
    case Expired => Some(CredentialExpired)
    case IssuerNotTrusted => Some(InvalidReason.IssuerNotTrusted)
    case IssuerPublicKeyInvalid => Some(InvalidReason.IssuerPublicKeyInvalid)
    case NotActive => Some(CredentialNotActive)
    case SignatureInvalid => Some(InvalidReason.SignatureInvalid)
  }

  /**
   * `mapVerifiedFail`: a failure reason of the library becomes `Invalid` with the matching
   * reason (only an expired credential carries its expiry and distance), or `CannotRead`
   * for malformed payloads, unsupported algorithms and a missing reason.
   */
  function MapVerifiedFail(reason: Option<Cwt.VerifyFailureReasonType>, expiry: DateStrings, expiredDurationMs: nat): (r: VerificationResult)
    ensures r.Valid? == false && r.CannotValidate? == false
    ensures r == CannotRead <==> reason.None? || InvalidReasonFor(reason.value).None?
    ensures r.Invalid? ==> reason.Some? && Some(r.failureReason) == InvalidReasonFor(reason.value)
    ensures r.Invalid? ==> (r.expiry.Some? <==> r.failureReason == CredentialExpired)
    ensures r.Invalid? && r.failureReason == CredentialExpired ==>
      r.expiry == Some(expiry) && r.expiredDurationMs == Some(expiredDurationMs)
    ensures r.Invalid? && r.failureReason != CredentialExpired ==> r.expiredDurationMs.None?
  {
    match reason
    case None => CannotRead
    case Some(Expired) => Invalid(CredentialExpired, Some(expiry), Some(expiredDurationMs))
    case Some(other) =>
      match InvalidReasonFor(other)
      case None => CannotRead
      case Some(invalidReason) => Invalid(invalidReason, None, None)
  }

  /** Distinct library reasons that make a credential invalid give distinct invalid reasons. */
  lemma InvalidReasonForInjective(a: Cwt.VerifyFailureReasonType, b: Cwt.VerifyFailureReasonType)
    requires InvalidReasonFor(a).Some? && InvalidReasonFor(a) == InvalidReasonFor(b)
    ensures a == b
  {
  }

  /** The envelope is well formed: prefix, version and a decodable body in the first three pieces. */
  predicate WellFormedEnvelope(payload: string) {
    var parts := Split(payload, '/');
    && |parts| >= 3
    && parts[0] == NZCP_PREFIX
    && parts[1] == NZCP_VERSION
    && parts[2] != ""
    && Decode(parts[2]).Some?
  }

  /**
   * `parsePayload`: splits on '/', demands the exact prefix and version and a non-empty
   * body, and decodes the body as base32. Pieces after the third are not looked at.
   */
  function ParsePayload(payload: string): (r: Result<seq<Byte>, VerificationResult>)
    ensures r.Failure? ==> r.error == CannotRead
    ensures r.Success? <==> WellFormedEnvelope(payload)
    ensures r.Success? ==> Some(r.value) == Decode(Split(payload, '/')[2])
  {
    var parts := Split(payload, '/');
    var prefix, version, body := Piece(parts, 0), Piece(parts, 1), Piece(parts, 2);
    if prefix == "" || version == "" || body == "" then Failure(CannotRead)
    else if prefix != NZCP_PREFIX then Failure(CannotRead)
    else if version != NZCP_VERSION then Failure(CannotRead)
    else
      match Decode(body)
      case None => Failure(CannotRead)
      case Some(bytes) => Success(bytes)
  }

  /** The bit-exact input format: "NZCP:/1/" followed by the base32 of any non-empty bytes
      parses back to exactly those bytes. */
  lemma ParsePayloadOfEncoding(bytes: seq<Byte>)
    requires |bytes| > 0
    ensures ParsePayload(NZCP_PREFIX + "/" + NZCP_VERSION + "/" + Encode(bytes)) == Success(bytes)
  {
    var body := Encode(bytes);
    EncodingPiece(bytes);
    SplitWithoutSeparator(body, '/');
    EnvelopePieces(body, Split(body, '/'));
  }

  /** Pieces after the body are ignored, not rejected. */
  lemma ParsePayloadIgnoresTrailingPieces(bytes: seq<Byte>, rest: string)
    requires |bytes| > 0
    ensures ParsePayload(NZCP_PREFIX + "/" + NZCP_VERSION + "/" + Encode(bytes) + "/" + rest) == Success(bytes)
  {
    var body := Encode(bytes);
    EncodingPiece(bytes);
    SplitAfterPiece(body, '/', rest);
    EnvelopePieces(body + "/" + rest, [body] + Split(rest, '/'));
    assert NZCP_PREFIX + "/" + NZCP_VERSION + "/" + body + "/" + rest == NZCP_PREFIX + "/" + NZCP_VERSION + "/" + (body + "/" + rest);
  }

  /** The base32 of non-empty bytes is a non-empty piece that decodes back to them. */
  lemma EncodingPiece(bytes: seq<Byte>)
    requires |bytes| > 0
    ensures Encode(bytes) != "" && '/' !in Encode(bytes)
    ensures Decode(Encode(bytes)) == Some(bytes)
  {
    assert SymbolValue('/').None?;
    DecodeEncode(bytes);
  }

  /** After the prefix and version pieces, the rest of the envelope is split on its own. */
  lemma EnvelopePieces(tail: string, tailPieces: seq<string>)
    requires Split(tail, '/') == tailPieces
    ensures Split(NZCP_PREFIX + "/" + NZCP_VERSION + "/" + tail, '/') == [NZCP_PREFIX, NZCP_VERSION] + tailPieces
  {
    var s := NZCP_PREFIX + "/" + NZCP_VERSION + "/" + tail;
    assert s == NZCP_PREFIX + ['/'] + (NZCP_VERSION + ['/'] + tail);
    SplitAfterPiece(NZCP_PREFIX, '/', NZCP_VERSION + ['/'] + tail);
    SplitAfterPiece(NZCP_VERSION, '/', tail);
  }

  /** `dob.split("-")` read as `[year, month, day]`. */
  function SplitDob(dob: string): DobStrings {
    var parts := Split(dob, '-');
    DobStrings(parts[0], OptionalPiece(parts, 1), OptionalPiece(parts, 2))
  }

  /** An ISO date "YYYY-MM-DD" splits into its year, month and day, in that order. */
  lemma SplitDobOfIsoDate(year: string, month: string, day: string)
    requires '-' !in year && '-' !in month && '-' !in day
    ensures SplitDob(year + "-" + month + "-" + day) == DobStrings(year, Some(month), Some(day))
  {
    var s := year + "-" + month + "-" + day;
    assert s == year + ['-'] + (month + ['-'] + day);
    SplitAfterPiece(year, '-', month + ['-'] + day);
    SplitAfterPiece(month, '-', day);
    SplitWithoutSeparator(day, '-');
  }

  /**
   * `parsePayloadDetails`: a truthy non-string family name, a non-string given name or a
   * non-string date of birth is unreadable; otherwise the fields are taken over and the
   * date of birth is split.
   */
  function ParsePayloadDetails(data: Option<map<string, JsValue>>): (r: Result<VerifyResultDetails, VerificationResult>)
    ensures r.Failure? ==> r.error == CannotRead
    ensures r.Failure? <==>
      || (Truthy(Property(data, "familyName")) && !Property(data, "familyName").Str?)
      || !Property(data, "givenName").Str?
      || !Property(data, "dob").Str?
    ensures r.Success? ==>
      && r.value.givenName == Property(data, "givenName").s
      && r.value.dob == SplitDob(Property(data, "dob").s)
      && (r.value.familyName.Some? <==> Property(data, "familyName").Str?)
      && (r.value.familyName.Some? ==> r.value.familyName.value == Property(data, "familyName").s)
  {
    var familyName := Property(data, "familyName");
    var givenName := Property(data, "givenName");
    var dob := Property(data, "dob");
    if Truthy(familyName) && !familyName.Str? then Failure(CannotRead)
    else if !givenName.Str? then Failure(CannotRead)
    else if !dob.Str? then Failure(CannotRead)
    else Success(VerifyResultDetails(
      familyName := if familyName.Str? then Some(familyName.s) else None,
      givenName := givenName.s,
      dob := SplitDob(dob.s)))
  }

  function Abs(x: int): nat {
    if x < 0 then -x else x
  }

  /** The `exp` claim of a response, when the response carries claims. */
  function ExpiryClaim(response: Cwt.VerifyResponse): Option<int> {
    if response.payload.Some? then response.payload.value.exp else None
  }

  /**
   * `verify`: the pipeline. The envelope is parsed first and nothing else happens when it
   * is malformed; library errors are mapped next; then a missing (or zero) `exp` makes the
   * credential expired before the `verified` flag is looked at; then failures are mapped;
   * finally the subject fields are checked.
   */
  function Verify(payload: string, sdkVerify: seq<Byte> -> Cwt.SdkOutcome, nowMs: int, localDate: int -> CalendarDate): VerificationResult {
    match ParsePayload(payload)
    case Failure(error) => error
    case Success(bytes) =>
      match sdkVerify(bytes)
      case SdkError(errorType) => MapSdkError(errorType)
      case SdkResponse(response) =>
        var expiry := ExpiryClaim(response);
        if expiry.None? || expiry.value == 0 then Invalid(CredentialExpired, None, None)
        else
          var expiryMs := expiry.value * 1000;
          var expiryStrings := GetDateStrings(localDate(expiryMs));
          var expiredDurationMs := Abs(nowMs - expiryMs);
          if !response.verified then MapVerifiedFail(response.reason, expiryStrings, expiredDurationMs)
          else
            match ParsePayloadDetails(response.payload.value.credentialSubject)
            case Failure(error) => error
            case Success(d) => Valid(VerificationDetails(d.familyName, d.givenName, d.dob, expiryStrings))
  }

  /** A malformed envelope is unreadable and the library is never consulted: any two oracles
      give the same answer. */
  lemma VerifyMalformedEnvelope(payload: string, sdk1: seq<Byte> -> Cwt.SdkOutcome, sdk2: seq<Byte> -> Cwt.SdkOutcome, nowMs: int, localDate: int -> CalendarDate)
    requires !WellFormedEnvelope(payload)
    ensures Verify(payload, sdk1, nowMs, localDate) == CannotRead
    ensures Verify(payload, sdk1, nowMs, localDate) == Verify(payload, sdk2, nowMs, localDate)
  {
  }

  /** The library is consulted on exactly the decoded bytes and nothing else. */
  lemma VerifyConsultsLibraryOnDecodedBytes(bytes: seq<Byte>, sdk1: seq<Byte> -> Cwt.SdkOutcome, sdk2: seq<Byte> -> Cwt.SdkOutcome, nowMs: int, localDate: int -> CalendarDate)
    requires |bytes| > 0
    requires sdk1(bytes) == sdk2(bytes)
    ensures var payload := NZCP_PREFIX + "/" + NZCP_VERSION + "/" + Encode(bytes);
      Verify(payload, sdk1, nowMs, localDate) == Verify(payload, sdk2, nowMs, localDate)
  {
    ParsePayloadOfEncoding(bytes);
  }

  /** Fail-closed: a response without a (non-zero) `exp` is an expired credential without an
      expiry, whatever the `verified` flag and the failure reason say. */
  lemma VerifyMissingExpiryFailsClosed(payload: string, sdkVerify: seq<Byte> -> Cwt.SdkOutcome, nowMs: int, localDate: int -> CalendarDate)
    requires ParsePayload(payload).Success?
    requires var outcome := sdkVerify(ParsePayload(payload).value);
      outcome.SdkResponse? && (ExpiryClaim(outcome.response).None? || ExpiryClaim(outcome.response) == Some(0))
    ensures Verify(payload, sdkVerify, nowMs, localDate) == Invalid(CredentialExpired, None, None)
  {
  }

  /** `Valid` exactly when every stage passes, and it carries the subject fields and the
      expiry strings derived from `exp`. */
  lemma VerifyValid(payload: string, sdkVerify: seq<Byte> -> Cwt.SdkOutcome, nowMs: int, localDate: int -> CalendarDate)
    ensures var r := Verify(payload, sdkVerify, nowMs, localDate);
      r.Valid? <==>
        && ParsePayload(payload).Success?
        && sdkVerify(ParsePayload(payload).value).SdkResponse?
        && var response := sdkVerify(ParsePayload(payload).value).response;
        && ExpiryClaim(response).Some? && ExpiryClaim(response).value != 0
        && response.verified
        && ParsePayloadDetails(response.payload.value.credentialSubject).Success?
    ensures var r := Verify(payload, sdkVerify, nowMs, localDate);
      r.Valid? ==>
        var response := sdkVerify(ParsePayload(payload).value).response;
        var d := ParsePayloadDetails(response.payload.value.credentialSubject).value;
        && r.details.givenName == d.givenName
        && r.details.familyName == d.familyName
        && r.details.dob == d.dob
        && r.details.expiry == GetDateStrings(localDate(ExpiryClaim(response).value * 1000))
  {
  }

  /** `CannotValidate` exactly when the library reports a network or timeout error. */
  lemma VerifyCannotValidate(payload: string, sdkVerify: seq<Byte> -> Cwt.SdkOutcome, nowMs: int, localDate: int -> CalendarDate)
    ensures Verify(payload, sdkVerify, nowMs, localDate) == CannotValidate <==>
      && ParsePayload(payload).Success?
      && var outcome := sdkVerify(ParsePayload(payload).value);
      && outcome.SdkError?
      && (outcome.errorType == Cwt.NetworkError || outcome.errorType == Cwt.TimeoutError)
  {
  }

  /** An expired verdict of the library carries the expiry strings and the distance from now. */
  lemma VerifyExpired(payload: string, sdkVerify: seq<Byte> -> Cwt.SdkOutcome, nowMs: int, localDate: int -> CalendarDate, exp: int)
    requires ParsePayload(payload).Success?
    requires var outcome := sdkVerify(ParsePayload(payload).value);
      && outcome.SdkResponse?
      && ExpiryClaim(outcome.response) == Some(exp) && exp != 0
      && !outcome.response.verified
      && outcome.response.reason == Some(Cwt.Expired)
    ensures Verify(payload, sdkVerify, nowMs, localDate) ==
      Invalid(CredentialExpired, Some(GetDateStrings(localDate(exp * 1000))), Some(Abs(nowMs - exp * 1000)))
  {
    var expiryStrings, expiredDurationMs := GetDateStrings(localDate(exp * 1000)), Abs(nowMs - exp * 1000);
    assert Verify(payload, sdkVerify, nowMs, localDate) == MapVerifiedFail(Some(Cwt.Expired), expiryStrings, expiredDurationMs);
  }
}
