/** Request shapes for student records: the semester and enrollment-year
    range validators of the create and update payloads. Each message is the
    text the validator raises; pydantic's "Value error, " prefix is not part
    of it. */
module StudentSchema {
  import opened Common

  predicate SemesterInRange(value: int) {
    1 <= value <= 12
  }

  predicate EnrollmentYearInRange(value: int) {
    2000 <= value <= 2100
  }

  /** `validate_semester` (the same on create and update): `None` or 1..12. */
  function ValidateSemester(value: Option<int>): (r: Result<Option<int>>)
    ensures r.Ok? <==> value.None? || SemesterInRange(value.value)
    ensures r.Ok? ==> r.value == value
  {
    if value.None? then Ok(value)
    else if value.value < 1 || value.value > 12 then Err(ValueError("Semester must be between 1 and 12"))
    else Ok(value)
  }

  /** `StudentCreate.validate_enrollment_year`: the year is mandatory and in
      2000..2100. */
  function ValidateEnrollmentYear(value: int): (r: Result<int>)
    ensures r.Ok? <==> EnrollmentYearInRange(value)
    ensures r.Ok? ==> r.value == value
  {
    if value < 2000 || value > 2100 then Err(ValueError("Enrollment year must be between 2000 and 2100"))
    else Ok(value)
  }

  /** `StudentUpdate.validate_enrollment_year`: `None` passes, a given year
      obeys the create rule. */
  function ValidateEnrollmentYearUpdate(value: Option<int>): (r: Result<Option<int>>)
    ensures r.Ok? <==> value.None? || EnrollmentYearInRange(value.value)
    ensures r.Ok? ==> r.value == value
  {
    if value.None? then Ok(value)
    else if value.value < 2000 || value.value > 2100 then Err(ValueError("Enrollment year must be between 2000 and 2100"))
    else Ok(value)
  }

  /** A year given on update is judged exactly as on create. */
  lemma YearUpdateAgreesWithCreate(value: int)
    ensures ValidateEnrollmentYearUpdate(Some(value)).Ok? == ValidateEnrollmentYear(value).Ok?
  {
  }
}
