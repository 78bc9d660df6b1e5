/**
 * The verification slice (app/features/verification/state/slice.ts): a loading flag and
 * the last stored result.
 */
module VerificationState {
  import opened Wrappers
  import opened VerificationTypes

  class Verification {
    var isLoading: bool
    var result: Option<VerificationResult>

    constructor ()
      ensures !isLoading && result == None
    {
      isLoading, result := false, None;
    }

    /** `doVerifyPayload.pending`: loading, with no result. */
    method Pending()
      modifies this
      ensures isLoading && result == None
    {
      isLoading, result := true, None;
    }

    /** `doVerifyPayload.rejected`: not loading, with no result. */
    method Rejected()
      modifies this
      ensures !isLoading && result == None
    {
      isLoading, result := false, None;
    }

    /** `doVerifyPayload.fulfilled`: not loading; the result is left as stored. */
    method Fulfilled()
      modifies this
      ensures !isLoading && result == old(result)
    {
      isLoading := false;
    }

    /** `doSetVerifyResult`: replaces the result; the loading flag is left alone. */
    method SetVerifyResult(payload: VerificationResult)
      modifies this
      ensures result == Some(payload) && isLoading == old(isLoading)
    {
      result := Some(payload);
    }
  }
}
