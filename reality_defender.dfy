/**
 * The Reality Defender adapter: the vendor's result mapped to the unified
 * response, and the retry policy around the API call.  The vendor call is a
 * parameter giving, per attempt, a result, a timeout or an error message.
 */
module RealityDefender {

  import opened Wrappers
  import opened Strings
  import LocalResNet

  /** The fields of the vendor's result the adapter reads; `None` is a missing key. */
  datatype VendorResult = VendorResult(
    status: Option<string>,
    score: Option<real>,
    requestId: Option<string>,
    models: Option<seq<string>>,
    reasons: Option<seq<string>>)

  /** The unified response; `models` and `reasons` are absent unless the vendor gave them. */
  datatype Response = Response(
    requestId: string,
    mediaType: string,
    status: string,
    score: real,
    scoreScale: string,
    vendorRaw: VendorResult,
    models: Option<seq<string>>,
    reasons: Option<seq<string>>)

  /** The vendor verdict, upper-cased, mapped to a unified status; anything unlisted is UNCERTAIN. */
  function StatusOf(verdict: string): string
  {
    var v := Upper(verdict);
    if v == "AUTHENTIC" || v == "REAL" then "AUTHENTIC"
    else if v == "FAKE" || v == "MANIPULATED" || v == "SYNTHETIC" then "FAKE"
    else "UNCERTAIN"
  }

  /** The status names the class of the verdict: authentic, fake, or uncertain for anything else. */
  lemma {:induction false} StatusClasses(verdict: string)
    ensures StatusOf(verdict) == "AUTHENTIC" <==> Upper(verdict) == "AUTHENTIC" || Upper(verdict) == "REAL"
    ensures StatusOf(verdict) == "FAKE" <==>
              Upper(verdict) == "FAKE" || Upper(verdict) == "MANIPULATED" || Upper(verdict) == "SYNTHETIC"
    ensures StatusOf(verdict) == "UNCERTAIN" <==> StatusOf(verdict) != "AUTHENTIC" && StatusOf(verdict) != "FAKE"
  {
  }

  /** `_format_response`. */
  function FormatResponse(result: VendorResult, mediaType: string): (r: Response)
    ensures r.status == StatusOf(if result.status.Some? then result.status.value else "")
    ensures result.status.None? ==> r.status == "UNCERTAIN"
    ensures r.score == (if result.score.Some? then result.score.value else 0.5)
    ensures r.requestId == (if result.requestId.Some? then result.requestId.value else "")
    ensures r.mediaType == mediaType && r.scoreScale == "0-1" && r.vendorRaw == result
    ensures r.models == result.models && r.reasons == result.reasons
  {
    Response(
      if result.requestId.Some? then result.requestId.value else "",
      mediaType,
      StatusOf(if result.status.Some? then result.status.value else ""),
      if result.score.Some? then result.score.value else 0.5,
      "0-1",
      result,
      result.models,
      result.reasons)
  }

  /** A missing verdict is uncertain. */
  lemma {:induction false} MissingStatusUncertain(result: VendorResult, mediaType: string)
    requires result.status.None?
    ensures FormatResponse(result, mediaType).status == "UNCERTAIN"
  {
    assert Upper("") == "";
  }

  /** `_is_retryable`: the lower-cased message mentions a timeout, the connection or a 502/503/504. */
  predicate IsRetryable(message: string)
  {
    var m := Lower(message);
    Find(m, "timeout").Some? || Find(m, "connection").Some? || Find(m, "503").Some? ||
    Find(m, "502").Some? || Find(m, "504").Some?
  }

  /** The left-to-right searches decide exactly whether one of the five markers occurs. */
  lemma {:induction false} RetryableMarkers(message: string)
    ensures IsRetryable(message) <==>
              Contains(Lower(message), "timeout") || Contains(Lower(message), "connection") ||
              Contains(Lower(message), "503") || Contains(Lower(message), "502") || Contains(Lower(message), "504")
  {
    var m := Lower(message);
    assert Find(m, "timeout").Some? <==> Contains(m, "timeout");
  }

  /** How one call of the vendor API ends. */
  datatype CallOutcome = Success(result: VendorResult) | CallTimeout | CallError(message: string)

  const RetryCount: nat := 2
  const RetryDelays: seq<real> := [0.5, 1.5]
  const TimeoutAfterRetries := "Reality Defender API timeout after retries"

  /**
   * The attempts from `attempt` on: the first success is formatted; a
   * timeout or a retryable error before the last attempt moves to the next;
   * a timeout on the last attempt, and any other error, ends the call.
   * The second component is the number of attempts made so far.
   */
  function Attempts(call: nat -> CallOutcome, mediaType: string, attempt: nat): (r: (Result<Response, string>, nat))
    requires attempt <= RetryCount
    ensures attempt < r.1 <= RetryCount + 1
    decreases RetryCount - attempt
  {
    match call(attempt)
    case Success(result) => (Ok(FormatResponse(result, mediaType)), attempt + 1)
    case CallTimeout =>
      if attempt < RetryCount then Attempts(call, mediaType, attempt + 1) else (Err(TimeoutAfterRetries), attempt + 1)
    case CallError(message) =>
      if attempt < RetryCount && IsRetryable(message) then Attempts(call, mediaType, attempt + 1)
      else (Err(message), attempt + 1)
  }

  /** One attempt of the policy: its outcome either ends the call or hands over to the next attempt. */
  lemma {:induction false} AttemptStep(call: nat -> CallOutcome, mediaType: string, attempt: nat)
    requires attempt <= RetryCount
    ensures call(attempt).Success? ==>
              Attempts(call, mediaType, attempt) == (Ok(FormatResponse(call(attempt).result, mediaType)), attempt + 1)
    ensures call(attempt).CallTimeout? && attempt >= RetryCount ==>
              Attempts(call, mediaType, attempt) == (Err(TimeoutAfterRetries), attempt + 1)
    ensures call(attempt).CallError? && !(attempt < RetryCount && IsRetryable(call(attempt).message)) ==>
              Attempts(call, mediaType, attempt) == (Err(call(attempt).message), attempt + 1)
    ensures attempt < RetryCount && Retried(call(attempt)) ==>
              Attempts(call, mediaType, attempt) == Attempts(call, mediaType, attempt + 1)
  {
  }

  /** An attempt that failed in a way the policy retries. */
  predicate Retried(outcome: CallOutcome) {
    outcome.CallTimeout? || (outcome.CallError? && IsRetryable(outcome.message))
  }

  /**
   * `detect`: at most three attempts, with the delays slept between them.
   * `attempts` is how many calls were made and `slept` the delays used.
   */
  method Detect(mime: string, call: nat -> CallOutcome) returns (r: Result<Response, string>, attempts: nat, slept: seq<real>)
    ensures (r, attempts) == Attempts(call, LocalResNet.MediaType(mime), 0)
    ensures 1 <= attempts <= RetryCount + 1
    ensures slept == RetryDelays[..attempts - 1]
  {
    var mediaType := LocalResNet.MediaType(mime);
    slept := [];
    var attempt := 0;
    while true
      invariant attempt <= RetryCount
      invariant Attempts(call, mediaType, 0) == Attempts(call, mediaType, attempt)
      invariant slept == RetryDelays[..attempt]
      decreases RetryCount - attempt
    {
      var finished;
      finished, slept := TryOnce(call, mediaType, attempt, slept);
      if finished.Some? {
        return finished.value, attempt + 1, slept;
      }
      attempt := attempt + 1;
    }
  }

  /**
   * One call of the vendor API: a success or an error that is not retried
   * is the answer of the whole policy; otherwise the attempt's delay is
   * slept and the next attempt decides.
   */
  method TryOnce(call: nat -> CallOutcome, mediaType: string, attempt: nat, slept: seq<real>)
    returns (finished: Option<Result<Response, string>>, slept': seq<real>)
    requires attempt <= RetryCount && slept == RetryDelays[..attempt]
    ensures finished.Some? ==> Attempts(call, mediaType, attempt) == (finished.value, attempt + 1) && slept' == slept
    ensures finished.None? ==>
              attempt < RetryCount && Attempts(call, mediaType, attempt) == Attempts(call, mediaType, attempt + 1) &&
              slept' == RetryDelays[..attempt + 1]
  {
    AttemptStep(call, mediaType, attempt);
    slept' := slept;
    match call(attempt) {
      case Success(result) =>
        return Some(Ok(FormatResponse(result, mediaType))), slept';
      case CallTimeout =>
        if attempt >= RetryCount {
          return Some(Err(TimeoutAfterRetries)), slept';
        }
      case CallError(message) =>
        if !(attempt < RetryCount && IsRetryable(message)) {
          return Some(Err(message)), slept';
        }
    }
    slept' := slept + [RetryDelays[attempt]];
    assert slept' == RetryDelays[..attempt + 1];
    return None, slept';
  }

  /**
   * The call returns the first success after attempts that were all
   * retried; an error that is not retried ends the call on the attempt
   * that raised it.
   */
  lemma {:induction false} FirstSuccessReturned(call: nat -> CallOutcome, mediaType: string, k: nat, from: nat)
    requires from <= k <= RetryCount
    requires forall j :: from <= j < k ==> Retried(call(j))
    ensures call(k).Success? ==>
              Attempts(call, mediaType, from) == (Ok(FormatResponse(call(k).result, mediaType)), k + 1)
    ensures call(k).CallError? && !IsRetryable(call(k).message) ==>
              Attempts(call, mediaType, from) == (Err(call(k).message), k + 1)
  {
    RetriedPrefix(call, mediaType, k, from);
    AttemptStep(call, mediaType, k);
  }

  /** Attempts that are all retried hand the answer over to the first attempt after them. */
  lemma {:induction false} RetriedPrefix(call: nat -> CallOutcome, mediaType: string, k: nat, from: nat)
    requires from <= k <= RetryCount
    requires forall j :: from <= j < k ==> Retried(call(j))
    ensures Attempts(call, mediaType, from) == Attempts(call, mediaType, k)
    decreases k - from
  {
    if from < k {
      assert Retried(call(from));
      RetriedStep(call, mediaType, from);
      RetriedPrefix(call, mediaType, k, from + 1);
      assert Attempts(call, mediaType, from + 1) == Attempts(call, mediaType, k);
    }
  }

  lemma RetriedStep(call: nat -> CallOutcome, mediaType: string, attempt: nat)
    requires attempt < RetryCount && Retried(call(attempt))
    ensures Attempts(call, mediaType, attempt) == Attempts(call, mediaType, attempt + 1)
  {
  }

  /** Three timeouts in a row end in the adapter's own timeout message. */
  lemma ThreeTimeouts(call: nat -> CallOutcome, mediaType: string)
    requires call(0).CallTimeout? && call(1).CallTimeout? && call(2).CallTimeout?
    ensures Attempts(call, mediaType, 0) == (Err(TimeoutAfterRetries), 3)
  {
  }

  /** A retryable error on the last attempt is passed on as it is. */
  lemma LastErrorPassedOn(call: nat -> CallOutcome, mediaType: string)
    requires Retried(call(0)) && Retried(call(1)) && call(2).CallError?
    ensures Attempts(call, mediaType, 0) == (Err(call(2).message), 3)
  {
  }
}
