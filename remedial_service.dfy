/** Remedial classes: creation with a fresh attendance code, updates that
    keep the time window and the code expiry consistent, and marking
    attendance with a code. Dates are day numbers, times of day seconds
    since midnight, instants seconds since the epoch. */
module RemedialService {
  import opened Common
  import opened Store
  import Helpers

  /** `_ensure_valid_time_window`. */
  function EnsureValidTimeWindow(startTime: int, endTime: int): (r: Result<()>)
    ensures r.Ok? <==> startTime < endTime
    ensures r.Err? ==> r.error == ValueError("End time must be later than start time")
  {
    if endTime <= startTime then Err(ValueError("End time must be later than start time")) else Ok(())
  }

  const SecondsPerDay: int := 86400
  /** The grace period after the end of the class. */
  const CodeGraceSeconds: int := 30 * 60

  /** The instant a class scheduled on `date` ends at `endTime`. */
  function EndInstant(date: int, endTime: int): int {
    date * SecondsPerDay + endTime
  }

  /** `_compute_code_expiry`: thirty minutes after the class ends. */
  function ComputeCodeExpiry(date: int, endTime: int): (r: int)
    ensures r - EndInstant(date, endTime) == 30 * 60
  {
    EndInstant(date, endTime) + CodeGraceSeconds
  }

  /** A code can be used until thirty minutes after the class ends, and not
      a second later. */
  lemma {:induction false} CodeUsableUntilGraceEnds(date: int, endTime: int, now: int)
    ensures !Helpers.IsCodeExpired(now, ComputeCodeExpiry(date, endTime)) <==> now - EndInstant(date, endTime) <= 30 * 60
  {
  }

  /** A later end (on the same day, or any time on a later day) gives a
      later expiry. */
  lemma {:induction false} ExpiryFollowsEnd(date1: int, end1: int, date2: int, end2: int)
    requires 0 <= end1 < SecondsPerDay && 0 <= end2 < SecondsPerDay
    requires date1 < date2 || (date1 == date2 && end1 <= end2)
    ensures ComputeCodeExpiry(date1, end1) <= ComputeCodeExpiry(date2, end2)
  {
  }

  /** A stored class is consistent when its window is valid and its code
      expires thirty minutes after it ends. */
  predicate Consistent(r: RemedialClass) {
    r.startTime < r.endTime && r.codeExpiresAt == ComputeCodeExpiry(r.scheduledDate, r.endTime)
  }

  predicate AllConsistent(remedials: map<Id, RemedialClass>) {
    forall k :: k in remedials ==> Consistent(remedials[k])
  }

  /** No two classes share a code (the column is unique). */
  predicate CodesUnique(remedials: map<Id, RemedialClass>) {
    forall k1, k2 :: k1 in remedials && k2 in remedials && k1 != k2 ==> remedials[k1].remedialCode != remedials[k2].remedialCode
  }

  function RemedialCodes(remedials: map<Id, RemedialClass>): set<string> {
    set k | k in remedials :: remedials[k].remedialCode
  }

  /** Length of a remedial code. */
  const RemedialCodeLength: nat := 6

  /** `RemedialClassCreate` after schema validation. */
  datatype RemedialCreate = RemedialCreate(
    sectionId: Id,
    classroomId: Id,
    scheduledDate: int,
    startTime: int,
    endTime: int,
    reason: Option<string>)

  /** `create_remedial_class` by `facultyId`; `draws` is the stream of codes
      the generator produces, one of which is unused. */
  method CreateRemedialClass(db: Database, data: RemedialCreate, facultyId: Id, draws: seq<string>) returns (r: Result<Id>)
    modifies db`remedials
    requires forall k :: 0 <= k < |draws| ==> Helpers.IsCode(draws[k], RemedialCodeLength)
    requires exists k :: 0 <= k < |draws| && draws[k] !in RemedialCodes(db.remedials)
    ensures data.endTime <= data.startTime ==> r == Err(ValueError("End time must be later than start time"))
    ensures data.startTime < data.endTime && data.sectionId !in db.sections ==> r == Err(LookupError("Section not found"))
    ensures (data.startTime < data.endTime && data.sectionId in db.sections
             && db.sections[data.sectionId].facultyId != facultyId) ==>
      r == Err(PermissionError("Faculty can create remedial classes only for assigned sections"))
    ensures (data.startTime < data.endTime && data.sectionId in db.sections
             && db.sections[data.sectionId].facultyId == facultyId
             && !(data.classroomId in db.classrooms && db.classrooms[data.classroomId].isAvailable)) ==>
      r == Err(LookupError("Classroom not found"))
    ensures r.Ok? <==> (data.startTime < data.endTime && data.sectionId in db.sections
                        && db.sections[data.sectionId].facultyId == facultyId
                        && data.classroomId in db.classrooms && db.classrooms[data.classroomId].isAvailable)
    ensures r.Err? ==> db.remedials == old(db.remedials)
    ensures r.Ok? ==>
      && r.value !in old(db.remedials) && r.value in db.remedials
      && var created := db.remedials[r.value];
      && db.remedials == old(db.remedials)[r.value := created]
      && created == RemedialClass(data.sectionId, facultyId, data.classroomId, data.scheduledDate, data.startTime,
                                  data.endTime, created.remedialCode, data.reason,
                                  ComputeCodeExpiry(data.scheduledDate, data.endTime), true)
      && created.remedialCode !in RemedialCodes(old(db.remedials))
      && Helpers.IsCode(created.remedialCode, RemedialCodeLength)
      && Consistent(created)
    ensures old(CodesUnique(db.remedials)) ==> CodesUnique(db.remedials)
    ensures old(AllConsistent(db.remedials)) ==> AllConsistent(db.remedials)
  {
    var window := EnsureValidTimeWindow(data.startTime, data.endTime);
    if window.Err? {
      return Err(window.error);
    }
    if data.sectionId !in db.sections {
      return Err(LookupError("Section not found"));
    }
    if db.sections[data.sectionId].facultyId != facultyId {
      return Err(PermissionError("Faculty can create remedial classes only for assigned sections"));
    }
    if !(data.classroomId in db.classrooms && db.classrooms[data.classroomId].isAvailable) {
      return Err(LookupError("Classroom not found"));
    }
    var code, _ := Helpers.PickUnusedCode(draws, RemedialCodes(db.remedials));
    var expiry := ComputeCodeExpiry(data.scheduledDate, data.endTime);
    var id := FreshKey(db.remedials);
    db.remedials := db.remedials[id := RemedialClass(data.sectionId, facultyId, data.classroomId, data.scheduledDate,
                                                     data.startTime, data.endTime, code, data.reason, expiry, true)];
    r := Ok(id);
  }

  /** `get_remedial_class`. */
  function GetRemedialClass(remedials: map<Id, RemedialClass>, remedialId: Id): (r: Result<RemedialClass>)
    ensures r.Ok? <==> remedialId in remedials
    ensures r.Ok? ==> r.value == remedials[remedialId]
    ensures r.Err? ==> r.error == LookupError("Remedial class not found")
  {
    if remedialId in remedials then Ok(remedials[remedialId]) else Err(LookupError("Remedial class not found"))
  }

  /** The keys of a `RemedialClassUpdate` that were set: `None` is an
      absent key, and for the date, the times and the reason `Some(None)`
      is a key set to null. */
  datatype RemedialUpdate = RemedialUpdate(
    sectionId: Option<Id>,
    classroomId: Option<Id>,
    scheduledDate: Option<Option<int>>,
    startTime: Option<Option<int>>,
    endTime: Option<Option<int>>,
    reason: Option<Option<string>>,
    isActive: Option<bool>)

  predicate IsEmptyUpdate(u: RemedialUpdate) {
    u == RemedialUpdate(None, None, None, None, None, None, None)
  }

  /** No key of the date or the times is set to null. */
  predicate NoNullTimes(u: RemedialUpdate) {
    u.scheduledDate != Some(None) && u.startTime != Some(None) && u.endTime != Some(None)
  }

  function Get<T>(o: Option<T>, default: T): T {
    if o.Some? then o.value else default
  }

  /** `payload.get(key, current)` for a key that may be set to null. */
  function Next<T>(key: Option<Option<T>>, current: T): Option<T> {
    if key.Some? then key.value else Some(current)
  }

  /** The value a non-null key gives, or the stored one. */
  function Given<T>(key: Option<Option<T>>, current: T): T
    requires key != Some(None)
  {
    if key.Some? then key.value.value else current
  }

  /** Python's name for the type of a time that may be null. */
  function TimeTypeName(t: Option<int>): string {
    if t.Some? then "datetime.time" else "NoneType"
  }

  /** `_ensure_valid_time_window(next_start, next_end)`: `end <= start`
      with a null on either side raises `TypeError` before the window is
      judged. */
  function MergedWindowCheck(nextStart: Option<int>, nextEnd: Option<int>): (r: Result<()>)
    ensures r.Ok? <==> nextStart.Some? && nextEnd.Some? && nextStart.value < nextEnd.value
    ensures nextStart.None? || nextEnd.None? ==> r.Err? && r.error.TypeError?
    ensures nextStart.Some? && nextEnd.Some? && r.Err? ==> r.error == ValueError("End time must be later than start time")
  {
    if nextStart.None? || nextEnd.None? then
      Err(TypeError("'<=' not supported between instances of '" + TimeTypeName(nextEnd) + "' and '"
                    + TimeTypeName(nextStart) + "'"))
    else EnsureValidTimeWindow(nextStart.value, nextEnd.value)
  }

  /** What `datetime.combine` raises when `_compute_code_expiry` is given
      a null date. */
  const NullDateError := TypeError("combine() argument 1 must be datetime.date, not None")

  /** The `setattr` loop followed by the expiry recomputation. */
  function ApplyUpdate(r: RemedialClass, u: RemedialUpdate): (s: RemedialClass)
    requires NoNullTimes(u)
    ensures s.facultyId == r.facultyId && s.remedialCode == r.remedialCode
    ensures u.scheduledDate.None? && u.endTime.None? ==> s.codeExpiresAt == r.codeExpiresAt
  {
    var s := r.(
      sectionId := Get(u.sectionId, r.sectionId),
      classroomId := Get(u.classroomId, r.classroomId),
      scheduledDate := Given(u.scheduledDate, r.scheduledDate),
      startTime := Given(u.startTime, r.startTime),
      endTime := Given(u.endTime, r.endTime),
      reason := Get(u.reason, r.reason),
      isActive := Get(u.isActive, r.isActive));
    if u.scheduledDate.Some? || u.endTime.Some? then s.(codeExpiresAt := ComputeCodeExpiry(s.scheduledDate, s.endTime))
    else s
  }

  /** An accepted update of a consistent class leaves it consistent: the
      merged window is checked, and the expiry is recomputed exactly when
      one of its inputs changes. */
  lemma {:induction false} UpdateKeepsConsistent(r: RemedialClass, u: RemedialUpdate)
    requires Consistent(r) && NoNullTimes(u)
    requires Given(u.startTime, r.startTime) < Given(u.endTime, r.endTime)
    ensures Consistent(ApplyUpdate(r, u))
  {
  }

  /** `update_remedial_class`; `actorFacultyId` is the actor's faculty row
      when the actor is a faculty member. */
  method UpdateRemedialClass(db: Database, remedialId: Id, u: RemedialUpdate, actorRole: string, actorFacultyId: Option<Id>)
    returns (r: Result<RemedialClass>)
    modifies db`remedials
    ensures remedialId !in old(db.remedials) ==> r == Err(LookupError("Remedial class not found"))
    ensures remedialId in old(db.remedials) && IsEmptyUpdate(u) ==> r == Err(ValueError("No fields provided for update"))
    ensures (remedialId in old(db.remedials) && !IsEmptyUpdate(u) && actorRole == "faculty"
             && actorFacultyId != Some(old(db.remedials[remedialId]).facultyId)) ==>
      r == Err(PermissionError("Faculty can only update their own remedial classes"))
    ensures (remedialId in old(db.remedials) && !IsEmptyUpdate(u)
             && (actorRole == "faculty" ==> actorFacultyId == Some(old(db.remedials[remedialId]).facultyId))) ==>
      var window := MergedWindowCheck(Next(u.startTime, old(db.remedials[remedialId]).startTime),
                                      Next(u.endTime, old(db.remedials[remedialId]).endTime));
      && (window.Err? ==> r == Err(window.error))
      && (window.Ok? && u.scheduledDate == Some(None) ==> r == Err(NullDateError))
      && (window.Ok? && u.scheduledDate != Some(None) ==> r.Ok?)
    ensures r.Ok? ==> (remedialId in old(db.remedials) && !IsEmptyUpdate(u) && NoNullTimes(u)
                       && (actorRole == "faculty" ==> actorFacultyId == Some(old(db.remedials[remedialId]).facultyId))
                       && Given(u.startTime, old(db.remedials[remedialId]).startTime)
                          < Given(u.endTime, old(db.remedials[remedialId]).endTime))
    ensures r.Err? ==> db.remedials == old(db.remedials)
    ensures r.Ok? ==>
      && r.value == ApplyUpdate(old(db.remedials[remedialId]), u)
      && db.remedials == old(db.remedials)[remedialId := r.value]
    ensures old(AllConsistent(db.remedials)) ==> AllConsistent(db.remedials)
    ensures old(CodesUnique(db.remedials)) ==> CodesUnique(db.remedials)
  {
    var found := GetRemedialClass(db.remedials, remedialId);
    if found.Err? {
      return Err(found.error);
    }
    var remedial := found.value;
    if IsEmptyUpdate(u) {
      return Err(ValueError("No fields provided for update"));
    }
    if actorRole == "faculty" && actorFacultyId != Some(remedial.facultyId) {
      return Err(PermissionError("Faculty can only update their own remedial classes"));
    }
    var window := MergedWindowCheck(Next(u.startTime, remedial.startTime), Next(u.endTime, remedial.endTime));
    if window.Err? {
      return Err(window.error);
    }
    if u.scheduledDate == Some(None) {
      return Err(NullDateError);
    }
    if Consistent(remedial) {
      UpdateKeepsConsistent(remedial, u);
    }
    var updated := ApplyUpdate(remedial, u);
    db.remedials := db.remedials[remedialId := updated];
    r := Ok(updated);
  }

  // ---------------------------------------------------------------------
  // Attendance by code.

  /** The dictionary `mark_remedial_attendance` returns. */
  datatype MarkOutcome = MarkFailed(error: string) | MarkSucceeded(message: string)

  /** Active classes carrying the code. */
  function ActiveWithCode(remedials: map<Id, RemedialClass>, code: string): set<Id> {
    set k | k in remedials && remedials[k].remedialCode == code && remedials[k].isActive
  }

  predicate AlreadyMarked(rows: map<Id, RemedialAttendance>, remedialId: Id, studentId: Id) {
    exists k :: k in rows && rows[k].remedialId == remedialId && rows[k].studentId == studentId
  }

  /** The unique constraint on (remedial, student). */
  predicate OneMarkPerStudent(rows: map<Id, RemedialAttendance>) {
    forall k1, k2 :: k1 in rows && k2 in rows && k1 != k2 ==>
      !(rows[k1].remedialId == rows[k2].remedialId && rows[k1].studentId == rows[k2].studentId)
  }

  /** The check that decides a mark against the class `remedialId` the code
      found, in the source's order. */
  function MarkError(remedials: map<Id, RemedialClass>, rows: map<Id, RemedialAttendance>,
                     enrollments: map<Id, Enrollment>, remedialId: Id, studentId: Id, now: int): Option<string>
    requires remedialId in remedials
  {
    var remedial := remedials[remedialId];
    if Helpers.IsCodeExpired(now, remedial.codeExpiresAt) then Some("Code has expired")
    else if AlreadyMarked(rows, remedialId, studentId) then Some("Attendance already marked")
    else if studentId !in ActiveStudentIds(enrollments, remedial.sectionId) then Some("Student is not enrolled in this section")
    else None
  }

  /** `mark_remedial_attendance` at instant `now`. `remedialId` is the class
      the code lookup chose, when there was one. */
  method MarkRemedialAttendance(db: Database, studentId: Id, code: string, now: int)
    returns (r: MarkOutcome, ghost remedialId: Option<Id>)
    modifies db`remedialAttendance
    ensures ActiveWithCode(db.remedials, code) == {} <==> remedialId.None?
    ensures remedialId.None? ==> r == MarkFailed("Invalid code")
    ensures remedialId.Some? ==>
      && remedialId.value in ActiveWithCode(db.remedials, code)
      && var err := MarkError(db.remedials, old(db.remedialAttendance), db.enrollments, remedialId.value, studentId, now);
      && (err.Some? ==> r == MarkFailed(err.value))
      && (err.None? ==> r == MarkSucceeded("Attendance marked successfully"))
    ensures r.MarkFailed? ==> db.remedialAttendance == old(db.remedialAttendance)
    ensures r.MarkSucceeded? ==>
      exists k: Id :: k !in old(db.remedialAttendance)
        && db.remedialAttendance == old(db.remedialAttendance)[k := RemedialAttendance(remedialId.value, studentId, now, Some(code))]
    ensures old(OneMarkPerStudent(db.remedialAttendance)) ==> OneMarkPerStudent(db.remedialAttendance)
  {
    remedialId := None;
    if k :| k in ActiveWithCode(db.remedials, code) {
      remedialId := Some(k);
      var remedial := db.remedials[k];
      if Helpers.IsCodeExpired(now, remedial.codeExpiresAt) {
        return MarkFailed("Code has expired"), remedialId;
      }
      if exists a :: a in db.remedialAttendance && db.remedialAttendance[a].remedialId == k
                     && db.remedialAttendance[a].studentId == studentId {
        return MarkFailed("Attendance already marked"), remedialId;
      }
      if studentId !in ActiveStudentIds(db.enrollments, remedial.sectionId) {
        return MarkFailed("Student is not enrolled in this section"), remedialId;
      }
      var rowId := FreshKey(db.remedialAttendance);
      db.remedialAttendance := db.remedialAttendance[rowId := RemedialAttendance(k, studentId, now, Some(code))];
      r := MarkSucceeded("Attendance marked successfully");
    } else {
      r := MarkFailed("Invalid code");
    }
  }

  /** After a successful mark the student counts as marked, so the same
      code used again by the same student is refused. */
  lemma {:induction false} SecondMarkRefused(rows: map<Id, RemedialAttendance>, k: Id, remedialId: Id, studentId: Id,
                                             now: int, code: string)
    ensures AlreadyMarked(rows[k := RemedialAttendance(remedialId, studentId, now, Some(code))], remedialId, studentId)
  {
    var after := rows[k := RemedialAttendance(remedialId, studentId, now, Some(code))];
    assert after[k].remedialId == remedialId && after[k].studentId == studentId;
  }

  /** With unique codes an active code names at most one class, so the
      lookup's choice is determined. */
  lemma {:induction false} UniqueCodeFindsOneClass(remedials: map<Id, RemedialClass>, code: string)
    requires CodesUnique(remedials)
    ensures forall k1, k2 :: k1 in ActiveWithCode(remedials, code) && k2 in ActiveWithCode(remedials, code) ==> k1 == k2
  {
  }
}
