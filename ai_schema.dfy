/** Request and response shapes of the AI endpoints that carry rules: the
    enrollment review action, the stream start request and the rush level. */
module AiSchema {
  import opened Common

  /** `FaceEnrollmentReviewRequest.action`: `Literal["approve", "reject"]`. */
  predicate IsReviewAction(action: string) {
    action == "approve" || action == "reject"
  }

  /** `FoodRushPredictionResponse.level`: `Literal["low", "moderate", "high"]`. */
  predicate IsRushLevel(level: string) {
    level == "low" || level == "moderate" || level == "high"
  }

  const DefaultConfidenceThreshold: real := 0.75
  const DefaultLateThresholdMinutes: int := 10

  /** `AIAttendanceStreamStartRequest` after validation. */
  datatype StreamStartRequest = StreamStartRequest(
    sessionId: Id,
    sourceUrl: string,
    confidenceThreshold: real,
    lateThresholdMinutes: int)

  predicate ValidStreamStartRequest(r: StreamStartRequest) {
    8 <= |r.sourceUrl| <= 1024
    && 0.4 <= r.confidenceThreshold <= 0.99
    && 1 <= r.lateThresholdMinutes <= 120
  }

  /** Builds the request from the raw body: absent thresholds take their
      defaults, then every field is checked against its bound. */
  function ParseStreamStartRequest(sessionId: Id, sourceUrl: string, confidence: Option<real>, lateMinutes: Option<int>): (r: Result<StreamStartRequest>)
    ensures r.Ok? ==> ValidStreamStartRequest(r.value)
    ensures r.Ok? ==> r.value.sessionId == sessionId && r.value.sourceUrl == sourceUrl
    ensures r.Ok? ==> r.value.confidenceThreshold == (if confidence.None? then DefaultConfidenceThreshold else confidence.value)
    ensures r.Ok? ==> r.value.lateThresholdMinutes == (if lateMinutes.None? then DefaultLateThresholdMinutes else lateMinutes.value)
    ensures r.Err? <==> (!(8 <= |sourceUrl| <= 1024)
                         || (confidence.Some? && !(0.4 <= confidence.value <= 0.99))
                         || (lateMinutes.Some? && !(1 <= lateMinutes.value <= 120)))
  {
    var c := if confidence.None? then DefaultConfidenceThreshold else confidence.value;
    var l := if lateMinutes.None? then DefaultLateThresholdMinutes else lateMinutes.value;
    if !(8 <= |sourceUrl| <= 1024) then Err(ValueError("source_url: length must be 8..1024"))
    else if !(0.4 <= c <= 0.99) then Err(ValueError("confidence_threshold: must be in [0.4, 0.99]"))
    else if !(1 <= l <= 120) then Err(ValueError("late_threshold_minutes: must be 1..120"))
    else Ok(StreamStartRequest(sessionId, sourceUrl, c, l))
  }

  /** A body that gives only the session and a plausible URL is accepted
      with the defaults. */
  lemma DefaultsAreValid(sessionId: Id, sourceUrl: string)
    requires 8 <= |sourceUrl| <= 1024
    ensures ParseStreamStartRequest(sessionId, sourceUrl, None, None)
      == Ok(StreamStartRequest(sessionId, sourceUrl, 0.75, 10))
  {
  }
}
