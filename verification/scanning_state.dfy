/**
 * The scanning slice (app/features/scanning/state/slice.ts): the last scanned payload and
 * whether the front camera alert has been dismissed for good.
 */
module ScanningState {
  import opened Wrappers

  class Scanning {
    var payload: Option<string>
    var isFrontCameraAlertDisabled: bool

    /** No payload, and the alert enabled. */
    constructor ()
      ensures payload == None && !isFrontCameraAlertDisabled
    {
      payload, isFrontCameraAlertDisabled := None, false;
    }

    /** `doScan.pending`: forgets the payload. */
    method ScanPending()
      modifies this
      ensures payload == None
      ensures isFrontCameraAlertDisabled == old(isFrontCameraAlertDisabled)
    {
      payload := None;
    }

    /** `doSetPayload`: stores exactly the given payload. */
    method SetPayload(scanned: string)
      modifies this
      ensures payload == Some(scanned)
      ensures isFrontCameraAlertDisabled == old(isFrontCameraAlertDisabled)
    {
      payload := Some(scanned);
    }

    /** `doDisableFrontCameraAlerts`: disables the alert whatever it was, so a second call changes nothing. */
    method DisableFrontCameraAlerts()
      modifies this
      ensures isFrontCameraAlertDisabled
      ensures payload == old(payload)
    {
      isFrontCameraAlertDisabled := true;
    }
  }

  /** The reducer cases of the slice, as actions dispatched to it. */
  datatype ScanningCase = ScanPendingCase | SetPayloadCase(scanned: string) | DisableFrontCameraAlertsCase

  /** The alert flag after the cases in order, starting from `disabled`. */
  function AlertDisabledAfter(disabled: bool, cases: seq<ScanningCase>): bool {
    if cases == [] then disabled
    else AlertDisabledAfter(disabled, cases[..|cases| - 1]) || cases[|cases| - 1].DisableFrontCameraAlertsCase?
  }

  /** The payload after the cases in order, starting from `payload`. */
  function PayloadAfter(payload: Option<string>, cases: seq<ScanningCase>): Option<string> {
    if cases == [] then payload
    else match cases[|cases| - 1]
      case ScanPendingCase => None
      case SetPayloadCase(scanned) => Some(scanned)
      case DisableFrontCameraAlertsCase => PayloadAfter(payload, cases[..|cases| - 1])
  }

  /**
   * No reducer case re-enables the alert: after any sequence of cases it is disabled
   * exactly when it was disabled before or one of the cases disabled it.
   */
  lemma {:induction false} AlertDisabledAfterCases(disabled: bool, cases: seq<ScanningCase>)
    ensures AlertDisabledAfter(disabled, cases) <==> disabled || DisableFrontCameraAlertsCase in cases
  {
    if cases != [] {
      var prefix := cases[..|cases| - 1];
      AlertDisabledAfterCases(disabled, prefix);
      assert cases == prefix + [cases[|cases| - 1]];
    }
  }

  /** The alert case leaves the payload alone: cases that only disable the alert keep it. */
  lemma {:induction false} PayloadUntouched(payload: Option<string>, cases: seq<ScanningCase>)
    requires forall i :: 0 <= i < |cases| ==> cases[i].DisableFrontCameraAlertsCase?
    ensures PayloadAfter(payload, cases) == payload
  {
    if cases != [] {
      PayloadUntouched(payload, cases[..|cases| - 1]);
    }
  }

  /**
   * The payload is decided by the last case that touches it: the one scanned last, or none
   * after a pending scan.
   */
  lemma {:induction false} PayloadOfLastTouch(payload: Option<string>, cases: seq<ScanningCase>, i: nat)
    requires i < |cases| && !cases[i].DisableFrontCameraAlertsCase?
    requires forall j :: i < j < |cases| ==> cases[j].DisableFrontCameraAlertsCase?
    ensures PayloadAfter(payload, cases) == if cases[i].SetPayloadCase? then Some(cases[i].scanned) else None
  {
    if i < |cases| - 1 {
      PayloadOfLastTouch(payload, cases[..|cases| - 1], i);
    }
  }

  /** Dispatches the cases in order to the slice. */
  method ApplyCases(state: Scanning, cases: seq<ScanningCase>)
    modifies state
    ensures state.isFrontCameraAlertDisabled == AlertDisabledAfter(old(state.isFrontCameraAlertDisabled), cases)
    ensures state.payload == PayloadAfter(old(state.payload), cases)
    ensures old(state.isFrontCameraAlertDisabled) ==> state.isFrontCameraAlertDisabled
  {
    var i := 0;
    while i < |cases|
      invariant 0 <= i <= |cases|
      invariant state.isFrontCameraAlertDisabled == AlertDisabledAfter(old(state.isFrontCameraAlertDisabled), cases[..i])
      invariant state.payload == PayloadAfter(old(state.payload), cases[..i])
    {
      assert cases[..i + 1][..i] == cases[..i];
      match cases[i] {
        case ScanPendingCase => state.ScanPending();
        case SetPayloadCase(scanned) => state.SetPayload(scanned);
        case DisableFrontCameraAlertsCase => state.DisableFrontCameraAlerts();
      }
      i := i + 1;
    }
    assert cases[..i] == cases;
    AlertDisabledAfterCases(old(state.isFrontCameraAlertDisabled), cases);
  }
}
