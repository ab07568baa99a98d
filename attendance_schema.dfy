/** Request shapes for manual attendance: the status literal and the bulk
    marking payload with its uniqueness validator. A message raised inside a
    field validator is the raised text; pydantic's "Value error, " prefix is
    not part of it. */
module AttendanceSchema {
  import opened Common

  /** `Literal["present", "absent"]`. */
  datatype AttendanceStatus = Present | Absent

  function StatusText(s: AttendanceStatus): string {
    match s
    case Present => "present"
    case Absent => "absent"
  }

  /** Parsing the literal: only the two spellings are accepted. */
  function ParseStatus(text: string): (r: Result<AttendanceStatus>)
    ensures r.Ok? <==> text == "present" || text == "absent"
    ensures r.Ok? ==> StatusText(r.value) == text
  {
    if text == "present" then Ok(Present)
    else if text == "absent" then Ok(Absent)
    else Err(ValueError("Input should be 'present' or 'absent'"))
  }

  /** Every status prints to a text that parses back to it. */
  lemma StatusRoundTrip(s: AttendanceStatus)
    ensures ParseStatus(StatusText(s)) == Ok(s)
  {
  }

  datatype AttendanceRecordCreate = AttendanceRecordCreate(studentId: Id, status: AttendanceStatus)

  /** `[record.student_id for record in records]`. */
  function StudentIds(records: seq<AttendanceRecordCreate>): (ids: seq<Id>)
    ensures |ids| == |records|
    ensures forall i :: 0 <= i < |records| ==> ids[i] == records[i].studentId
  {
    seq(|records|, i requires 0 <= i < |records| => records[i].studentId)
  }

  /** `BulkAttendanceMark.attendance_records`: at least one record
      (`min_length=1`) and no student twice (`len(ids) != len(set(ids))`).
      An accepted list is returned as it was. */
  function ValidateBulkAttendance(records: seq<AttendanceRecordCreate>): (r: Result<seq<AttendanceRecordCreate>>)
    ensures r.Ok? <==> |records| >= 1 && Distinct(StudentIds(records))
    ensures r.Ok? ==> r.value == records
  {
    var ids := StudentIds(records);
    DistinctIffSetSize(StudentIds(records));
    if |records| < 1 then Err(ValueError("List should have at least 1 item after validation, not 0"))
    else if |ids| != |set x: Id | x in ids| then Err(ValueError("Duplicate student_id values are not allowed"))
    else Ok(records)
  }

  /** A record list with a repeated student is refused whatever the statuses. */
  lemma {:induction false} RepeatedStudentRejected(records: seq<AttendanceRecordCreate>, i: nat, j: nat)
    requires i < j < |records| && records[i].studentId == records[j].studentId
    ensures ValidateBulkAttendance(records).Err?
  {
    assert StudentIds(records)[i] == StudentIds(records)[j];
  }
}
