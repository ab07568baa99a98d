/** Request shapes for remedial classes: the `end_time` validators on the
    create and update payloads. Times of day are seconds since midnight. */
module RemedialSchema {
  import opened Common

  /** `RemedialClassCreate.validate_time_window`. `startTime` is what the
      already-validated data holds for `start_time`: `None` when that field
      failed its own validation, in which case the check is skipped. */
  function ValidateCreateEndTime(startTime: Option<int>, endTime: int): (r: Result<int>)
    ensures r.Ok? <==> startTime.None? || endTime > startTime.value
    ensures r.Ok? ==> r.value == endTime
  {
    if startTime.Some? && endTime <= startTime.value then
      Err(ValueError("end_time must be later than start_time"))
    else
      Ok(endTime)
  }

  /** `RemedialClassUpdate.validate_time_window`: an absent `end_time`
      always passes; otherwise the window is checked only against a
      `start_time` given in the same payload. */
  function ValidateUpdateEndTime(startTime: Option<int>, endTime: Option<int>): (r: Result<Option<int>>)
    ensures endTime.None? ==> r == Ok(None)
    ensures r.Ok? <==> endTime.None? || startTime.None? || endTime.value > startTime.value
    ensures r.Ok? ==> r.value == endTime
  {
    if endTime.None? then Ok(endTime)
    else if startTime.Some? && endTime.value <= startTime.value then
      Err(ValueError("end_time must be later than start_time"))
    else
      Ok(endTime)
  }

  /** With an `end_time` present both validators make the same decision. */
  lemma UpdateAgreesWithCreate(startTime: Option<int>, endTime: int)
    ensures ValidateUpdateEndTime(startTime, Some(endTime)).Ok? == ValidateCreateEndTime(startTime, endTime).Ok?
  {
  }
}
