/**
 * The verification thunks (app/features/verification/actions/index.ts).
 *
 * Clock reads are parameters: `startAtMs` and `endAtMs` are the two reads around the
 * service call and `verifyNowMs` the one inside it. Abortion of the request is the
 * boolean `aborted`, as observed after the service call.
 */
module VerificationActions {
  import opened Wrappers
  import opened DateStrings
  import opened VerificationTypes
  import opened AppEffects
  import opened VerificationState
  import opened SettingsState
  import Service = VerificationService
  import Cwt = CwtVerifier
  import Base32

  /** `Math.max(endAtMs - startAtMs, 0)`. */
  function ProcessedInMs(startAtMs: int, endAtMs: int): (ms: nat)
    ensures ms >= endAtMs - startAtMs
    ensures ms == 0 || ms == endAtMs - startAtMs
  {
    if endAtMs - startAtMs > 0 then endAtMs - startAtMs else 0
  }

  /** The result screen for each outcome. */
  function ResultRoute(result: VerificationResult): Route {
    match result
    case Valid(_) => VerificationSuccess
    case Invalid(_, _, _) => VerificationInvalid
    case CannotRead => VerificationCannotRead
    case CannotValidate => VerificationCannotValidate
  }

  function FeedbackSound(result: VerificationResult): Sound {
    if result.Valid? then ValidSound else InvalidSound
  }

  function FeedbackVibration(result: VerificationResult): Vibration {
    if result.Valid? then ValidVibration else InvalidVibration
  }

  /** The steps `doVerifyPayload` takes once the service has answered. */
  function VerifyPayloadEffects(result: VerificationResult, processedInMs: nat, aborted: bool, isAudioOn: bool, isVibrationOn: bool): seq<Effect> {
    if aborted then []
    else
      [VerifyResultDispatched(result), ScanEventDispatched(result, processedInMs), NavigateReplace(ResultRoute(result))]
      + (if isAudioOn then [PlaySound(FeedbackSound(result))] else [])
      + (if isVibrationOn then [Vibrate(FeedbackVibration(result))] else [])
  }

  /** An aborted request has no effect at all. */
  lemma AbortedVerificationHasNoEffects(result: VerificationResult, processedInMs: nat, isAudioOn: bool, isVibrationOn: bool)
    ensures VerifyPayloadEffects(result, processedInMs, true, isAudioOn, isVibrationOn) == []
  {
  }

  /**
   * A request that was not aborted first stores the result, then reports it with its
   * processing time to analytics, then navigates exactly once, to the screen of the
   * outcome; sound and vibration follow, each only when switched on, and only a valid
   * result uses the VALID feedback.
   */
  lemma VerificationEffectsOrder(result: VerificationResult, processedInMs: nat, isAudioOn: bool, isVibrationOn: bool)
    ensures var es := VerifyPayloadEffects(result, processedInMs, false, isAudioOn, isVibrationOn);
      && |es| >= 3
      && es[0] == VerifyResultDispatched(result)
      && es[1] == ScanEventDispatched(result, processedInMs)
      && es[2] == NavigateReplace(ResultRoute(result))
      && (forall i :: 0 <= i < |es| && es[i].IsNavigation() ==> i == 2)
      && (PlaySound(ValidSound) in es <==> isAudioOn && result.Valid?)
      && (PlaySound(InvalidSound) in es <==> isAudioOn && !result.Valid?)
      && (Vibrate(ValidVibration) in es <==> isVibrationOn && result.Valid?)
      && (Vibrate(InvalidVibration) in es <==> isVibrationOn && !result.Valid?)
  {
    var es := VerifyPayloadEffects(result, processedInMs, false, isAudioOn, isVibrationOn);
    var sound: seq<Effect> := if isAudioOn then [PlaySound(FeedbackSound(result))] else [];
    var vibration: seq<Effect> := if isVibrationOn then [Vibrate(FeedbackVibration(result))] else [];
    assert es == [es[0], es[1], es[2]] + sound + vibration;
    assert forall e: Effect :: e in sound + vibration ==> !e.IsNavigation();
  }

  /** Each outcome has its own result screen. */
  lemma ResultRouteInjective(r1: VerificationResult, r2: VerificationResult)
    requires ResultRoute(r1) == ResultRoute(r2)
    ensures r1.StatusName() == r2.StatusName()
  {
  }

  /**
   * `doVerifyPayload`: runs the service, measures the time, and unless aborted stores the
   * result, dispatches the analytics event, navigates and gives feedback.
   */
  method DoVerifyPayload(
    state: Verification, settings: Settings,
    payload: string, sdkVerify: seq<Base32.Byte> -> Cwt.SdkOutcome, localDate: int -> CalendarDate,
    startAtMs: int, verifyNowMs: int, endAtMs: int, aborted: bool)
    returns (effects: seq<Effect>)
    modifies state
    ensures var result := Service.Verify(payload, sdkVerify, verifyNowMs, localDate);
      effects == VerifyPayloadEffects(result, ProcessedInMs(startAtMs, endAtMs), aborted, settings.isAudioOn, settings.isVibrationOn)
    ensures var result := Service.Verify(payload, sdkVerify, verifyNowMs, localDate);
      state.result == if aborted then old(state.result) else Some(result)
    ensures state.isLoading == old(state.isLoading)
  {
    var result := Service.Verify(payload, sdkVerify, verifyNowMs, localDate);
    var processedInMs := ProcessedInMs(startAtMs, endAtMs);
    effects := [];
    if aborted {
      return;
    }
    state.SetVerifyResult(result);
    effects := effects + [VerifyResultDispatched(result)];
    effects := effects + [ScanEventDispatched(result, processedInMs)];
    var isAudioOn := settings.isAudioOn;
    var isVibrationOn := settings.isVibrationOn;
    effects := effects + [NavigateReplace(ResultRoute(result))];
    if isAudioOn {
      effects := effects + [PlaySound(FeedbackSound(result))];
    }
    if isVibrationOn {
      effects := effects + [Vibrate(FeedbackVibration(result))];
    }
  }

  /**
   * The thunk's whole life cycle: `pending`, the body, then `fulfilled`, or `rejected` when
   * the request was aborted (an aborted thunk settles as rejected). Loading ends, and the
   * stored result is the new one, or none at all when the request was aborted.
   */
  method DispatchVerifyPayload(
    state: Verification, settings: Settings,
    payload: string, sdkVerify: seq<Base32.Byte> -> Cwt.SdkOutcome, localDate: int -> CalendarDate,
    startAtMs: int, verifyNowMs: int, endAtMs: int, aborted: bool)
    returns (effects: seq<Effect>)
    requires state != settings as object
    modifies state
    ensures !state.isLoading
    ensures state.result == if aborted then None else Some(Service.Verify(payload, sdkVerify, verifyNowMs, localDate))
    ensures aborted ==> effects == []
  {
    state.Pending();
    effects := DoVerifyPayload(state, settings, payload, sdkVerify, localDate, startAtMs, verifyNowMs, endAtMs, aborted);
    if aborted {
      state.Rejected();
    } else {
      state.Fulfilled();
    }
  }

  /** `doCancelVerification`: back to the scanner. */
  function CancelVerificationEffects(): (effects: seq<Effect>)
    ensures |effects| == 1 && effects[0].Navigate? && effects[0].route == Scan
  {
    [Navigate(Scan)]
  }

  /** `doCloseVerificationResult`: Home when asked to (the option defaults to false), else Scan. */
  function CloseVerificationResultEffects(navigateHome: Option<bool>): (effects: seq<Effect>)
    ensures |effects| == 1 && effects[0].Navigate?
    ensures effects[0].route == Home <==> navigateHome == Some(true)
    ensures effects[0].route != Home ==> effects[0].route == Scan
  {
    [Navigate(if navigateHome.GetOr(false) then Home else Scan)]
  }
}
