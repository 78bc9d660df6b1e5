/**
 * Analytics decisions (app/features/analytics/actions/index.ts): which event a scan or
 * a first launch records. The recording call itself is external.
 */
module Analytics {
  import opened Wrappers
  import opened VerificationTypes

  datatype AnalyticsEvent = ScanValid | ScanInvalid | FirstUse

  /** The string value of the `AnalyticsEvent` enum member. */
  function EventName(event: AnalyticsEvent): string {
    match event
    case ScanValid => "scanValid"
    case ScanInvalid => "scanInvalid"
    case FirstUse => "firstUse"
  }

  /** One `recordEvent` call: the event, its `reason` attribute and its `processedInMs` metric. */
  datatype AnalyticsRecord = AnalyticsRecord(event: AnalyticsEvent, reason: Option<string>, processedInMs: Option<int>)

  /** The `reason` attribute of a failed scan: the invalid reason, or the status name. */
  function ScanFailureReason(result: VerificationResult): string
    requires !result.Valid?
  {
    if result.Invalid? then InvalidReasonName(result.failureReason) else result.StatusName()
  }

  /**
   * `doRecordAnalyticsScanEvent`: nothing when analytics is disabled; otherwise a valid scan
   * records SCAN_VALID with only the processing time, any other scan SCAN_INVALID with
   * its reason and the processing time.
   */
  function ScanEventRecord(analyticsEnabled: bool, result: VerificationResult, processedInMs: int): (r: Option<AnalyticsRecord>)
    ensures r.Some? <==> analyticsEnabled
    ensures r.Some? ==> r.value.processedInMs == Some(processedInMs)
    ensures r.Some? ==> (r.value.event == ScanValid <==> result.Valid?)
    ensures r.Some? ==> r.value.event != FirstUse
    ensures r.Some? && result.Valid? ==> r.value.reason.None?
    ensures r.Some? && !result.Valid? ==> r.value.reason == Some(ScanFailureReason(result))
  {
    if !analyticsEnabled then None
    else if result.Valid? then Some(AnalyticsRecord(ScanValid, None, Some(processedInMs)))
    else Some(AnalyticsRecord(ScanInvalid, Some(ScanFailureReason(result)), Some(processedInMs)))
  }

  /** The reason attribute tells the failed outcomes apart: equal reasons mean the same status
      and, for invalid results, the same invalid reason. */
  lemma ScanFailureReasonInjective(r1: VerificationResult, r2: VerificationResult)
    requires !r1.Valid? && !r2.Valid?
    requires ScanFailureReason(r1) == ScanFailureReason(r2)
    ensures r1.StatusName() == r2.StatusName()
    ensures r1.Invalid? ==> r1.failureReason == r2.failureReason
  {
    var s1, s2 := ScanFailureReason(r1), ScanFailureReason(r2);
    assert |s1| == |s2|;
    assert s1[0] == s2[0] && s1[|s1| - 1] == s2[|s2| - 1];
    if |s1| > 10 { assert s1[10] == s2[10]; }
  }

  /** `doRecordAnalyticsFirstUse`: FIRST_USE only when enabled and not launched before. */
  function FirstUseRecord(analyticsEnabled: bool, appHasFirstLaunched: bool): (r: Option<AnalyticsRecord>)
    ensures r.Some? <==> analyticsEnabled && !appHasFirstLaunched
    ensures r.Some? ==> r.value == AnalyticsRecord(FirstUse, None, None)
  {
    if !analyticsEnabled then None
    else if !appHasFirstLaunched then Some(AnalyticsRecord(FirstUse, None, None))
    else None
  }
}
