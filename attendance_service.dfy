/** Manual attendance: the section roster a faculty member sees, opening a
    session, and marking a whole session at once. */
module AttendanceService {
  import opened Common
  import opened AttendanceSchema
  import opened Store

  // ---------------------------------------------------------------------
  // Registration-number order.

  /** Lexicographic order on strings (SQL `ORDER BY ... ASC` on text). */
  predicate LexLe(a: string, b: string) {
    if a == [] then true
    else if b == [] then false
    else if a[0] != b[0] then a[0] < b[0]
    else LexLe(a[1..], b[1..])
  }

  lemma {:induction false} LexLeTotal(a: string, b: string)
    ensures LexLe(a, b) || LexLe(b, a)
  {
    if a != [] && b != [] && a[0] == b[0] {
      LexLeTotal(a[1..], b[1..]);
    }
  }

  lemma {:induction false} LexLeTransitive(a: string, b: string, c: string)
    requires LexLe(a, b) && LexLe(b, c)
    ensures LexLe(a, c)
  {
    if a != [] && b != [] && c != [] && a[0] == b[0] && b[0] == c[0] {
      LexLeTransitive(a[1..], b[1..], c[1..]);
    }
  }

  /** `ids` lists students in ascending registration-number order. */
  predicate SortedByRegistration(ids: seq<Id>, students: map<Id, Student>) {
    (forall i :: 0 <= i < |ids| ==> ids[i] in students)
    && forall i, j :: 0 <= i < j < |ids| ==> LexLe(students[ids[i]].registrationNumber, students[ids[j]].registrationNumber)
  }

  /** Places `x` after every student whose number does not exceed its own. */
  function InsertByRegistration(ids: seq<Id>, x: Id, students: map<Id, Student>): (r: seq<Id>)
    requires x in students && SortedByRegistration(ids, students)
    ensures SortedByRegistration(r, students)
    ensures multiset(r) == multiset(ids) + multiset{x}
  {
    if ids == [] then [x]
    else if LexLe(students[ids[0]].registrationNumber, students[x].registrationNumber) then
      var rest := InsertByRegistration(ids[1..], x, students);
      assert multiset(ids) == multiset{ids[0]} + multiset(ids[1..]) by {
        assert ids == [ids[0]] + ids[1..];
      }
      FirstBoundsInsertion(ids, x, rest, students);
      SortedCons(ids[0], rest, students);
      [ids[0]] + rest
    else
      LexLeTotal(students[ids[0]].registrationNumber, students[x].registrationNumber);
      forall j | 0 <= j < |ids| ensures LexLe(students[x].registrationNumber, students[ids[j]].registrationNumber) {
        if j > 0 {
          LexLeTransitive(students[x].registrationNumber, students[ids[0]].registrationNumber,
                          students[ids[j]].registrationNumber);
        }
      }
      SortedCons(x, ids, students);
      [x] + ids
  }

  /** A student whose number is at most every number of a sorted list can
      go in front of it. */
  lemma {:induction false} SortedCons(y: Id, ids: seq<Id>, students: map<Id, Student>)
    requires y in students && SortedByRegistration(ids, students)
    requires forall j :: 0 <= j < |ids| ==> LexLe(students[y].registrationNumber, students[ids[j]].registrationNumber)
    ensures SortedByRegistration([y] + ids, students)
  {
    var s := [y] + ids;
    forall i | 0 <= i < |s| ensures s[i] in students {
      if i > 0 { assert s[i] == ids[i - 1]; }
    }
    forall i, j | 0 <= i < j < |s|
      ensures LexLe(students[s[i]].registrationNumber, students[s[j]].registrationNumber)
    {
      assert s[j] == ids[j - 1];
      if i > 0 { assert s[i] == ids[i - 1]; }
    }
  }

  /** The first number of a sorted list bounds everything after inserting a
      larger one into the rest of the list. */
  lemma {:induction false} FirstBoundsInsertion(ids: seq<Id>, x: Id, rest: seq<Id>, students: map<Id, Student>)
    requires ids != [] && x in students && SortedByRegistration(ids, students)
    requires LexLe(students[ids[0]].registrationNumber, students[x].registrationNumber)
    requires SortedByRegistration(rest, students) && multiset(rest) == multiset(ids[1..]) + multiset{x}
    ensures forall j :: 0 <= j < |rest| ==> LexLe(students[ids[0]].registrationNumber, students[rest[j]].registrationNumber)
  {
    forall j | 0 <= j < |rest| ensures LexLe(students[ids[0]].registrationNumber, students[rest[j]].registrationNumber) {
      assert rest[j] in multiset(rest);
      if rest[j] != x {
        assert rest[j] in multiset(ids[1..]);
        var k :| 0 <= k < |ids[1..]| && ids[1..][k] == rest[j];
        assert ids[k + 1] == rest[j];
      }
    }
  }

  /** `_get_section` followed by the ownership check of
      `list_section_students` / `create_session`. */
  function OwnedSection(sections: map<Id, Section>, sectionId: Id, facultyId: Id, notOwner: string): (r: Result<Section>)
    ensures r.Ok? <==> sectionId in sections && sections[sectionId].facultyId == facultyId
    ensures r.Ok? ==> r.value == sections[sectionId]
    ensures sectionId !in sections ==> r == Err(LookupError("Section not found"))
    ensures sectionId in sections && sections[sectionId].facultyId != facultyId ==> r == Err(PermissionError(notOwner))
  {
    if sectionId !in sections then Err(LookupError("Section not found"))
    else if sections[sectionId].facultyId != facultyId then Err(PermissionError(notOwner))
    else Ok(sections[sectionId])
  }

  /** `list_section_students`: the actively enrolled students of a section
      the faculty member teaches, by registration number. */
  method ListSectionStudents(db: Database, sectionId: Id, facultyId: Id) returns (r: Result<seq<Id>>)
    ensures sectionId !in db.sections ==> r == Err(LookupError("Section not found"))
    ensures sectionId in db.sections && db.sections[sectionId].facultyId != facultyId ==>
      r == Err(PermissionError("Faculty can access only their assigned sections"))
    ensures r.Ok? <==> sectionId in db.sections && db.sections[sectionId].facultyId == facultyId
    ensures r.Ok? ==>
      && Distinct(r.value)
      && (set x | x in r.value) == ActiveStudentIds(db.enrollments, sectionId) * db.students.Keys
      && SortedByRegistration(r.value, db.students)
    ensures r.Ok? && ActiveStudentIds(db.enrollments, sectionId) == {} ==> r.value == []
  {
    var section := OwnedSection(db.sections, sectionId, facultyId, "Faculty can access only their assigned sections");
    if section.Err? {
      return Err(section.error);
    }
    var wanted := ActiveStudentIds(db.enrollments, sectionId) * db.students.Keys;
    var listed: seq<Id> := [];
    var remaining := wanted;
    while remaining != {}
      invariant remaining <= wanted
      invariant multiset(listed) == multiset(wanted - remaining)
      invariant SortedByRegistration(listed, db.students)
      decreases |remaining|
    {
      var s :| s in remaining;
      listed := InsertByRegistration(listed, s, db.students);
      remaining := remaining - {s};
    }
    assert wanted - remaining == wanted;
    SetMultisetDistinct(listed, wanted);
    if listed != [] {
      assert listed[0] in (set x | x in listed);
    }
    r := Ok(listed);
  }

  /** A sequence whose multiset is a set's lists each member once. */
  lemma {:induction false} SetMultisetDistinct(xs: seq<Id>, s: set<Id>)
    requires multiset(xs) == multiset(s)
    ensures Distinct(xs) && (set x | x in xs) == s
  {
    forall x | x in xs ensures x in s {
      assert x in multiset(xs);
    }
    forall i, j | 0 <= i < j < |xs| ensures xs[i] != xs[j] {
      if xs[i] == xs[j] {
        assert multiset(xs)[xs[i]] >= 2 by {
          MultisetCountsTwo(xs, i, j);
        }
        assert false;
      }
    }
    forall x | x in s ensures x in xs {
      assert x in multiset(s);
      assert x in multiset(xs);
    }
  }

  lemma {:induction false} MultisetCountsTwo(xs: seq<Id>, i: nat, j: nat)
    requires i < j < |xs| && xs[i] == xs[j]
    ensures multiset(xs)[xs[i]] >= 2
  {
    assert xs == xs[..i] + [xs[i]] + xs[i + 1..j] + [xs[j]] + xs[j + 1..];
  }

  // ---------------------------------------------------------------------
  // Opening a session.

  /** `AttendanceSessionCreate`. */
  datatype SessionCreate = SessionCreate(sectionId: Id, classroomId: Option<Id>, sessionDate: int)

  predicate HasOpenSession(sessions: map<Id, AttendanceSession>, sectionId: Id, date: int) {
    exists k :: k in sessions && sessions[k].sectionId == sectionId && sessions[k].sessionDate == date && !sessions[k].isClosed
  }

  /** No section has two open sessions on the same date. */
  predicate OneOpenSessionPerDay(sessions: map<Id, AttendanceSession>) {
    forall k1, k2 :: k1 in sessions && k2 in sessions && k1 != k2 && !sessions[k1].isClosed && !sessions[k2].isClosed ==>
      !(sessions[k1].sectionId == sessions[k2].sectionId && sessions[k1].sessionDate == sessions[k2].sessionDate)
  }

  /** `create_session` by `facultyId` at instant `now`. */
  method CreateSession(db: Database, data: SessionCreate, facultyId: Id, now: int) returns (r: Result<Id>)
    modifies db`sessions
    ensures data.sectionId !in db.sections ==> r == Err(LookupError("Section not found"))
    ensures data.sectionId in db.sections && db.sections[data.sectionId].facultyId != facultyId ==>
      r == Err(PermissionError("Faculty can create sessions only for assigned sections"))
    ensures (data.sectionId in db.sections && db.sections[data.sectionId].facultyId == facultyId && data.classroomId.Some?
             && !(data.classroomId.value in db.classrooms && db.classrooms[data.classroomId.value].isAvailable)) ==>
      r == Err(LookupError("Classroom not found"))
    ensures (data.sectionId in db.sections && db.sections[data.sectionId].facultyId == facultyId
             && (data.classroomId.Some? ==> data.classroomId.value in db.classrooms && db.classrooms[data.classroomId.value].isAvailable)
             && HasOpenSession(old(db.sessions), data.sectionId, data.sessionDate)) ==>
      r == Err(ValueError("An open attendance session already exists for this section/date"))
    ensures r.Ok? <==> (data.sectionId in db.sections && db.sections[data.sectionId].facultyId == facultyId
                        && (data.classroomId.Some? ==> data.classroomId.value in db.classrooms
                                                       && db.classrooms[data.classroomId.value].isAvailable)
                        && !HasOpenSession(old(db.sessions), data.sectionId, data.sessionDate))
    ensures r.Err? ==> db.sessions == old(db.sessions)
    ensures r.Ok? ==>
      && r.value !in old(db.sessions)
      && db.sessions == old(db.sessions)[r.value := AttendanceSession(data.sectionId, data.classroomId, data.sessionDate, now, None,
                                                                     "regular", false, facultyId,
                                                                     |ActiveEnrollmentRows(db.enrollments, data.sectionId)|, 0, 0)]
    ensures old(OneOpenSessionPerDay(db.sessions)) ==> OneOpenSessionPerDay(db.sessions)
  {
    var section := OwnedSection(db.sections, data.sectionId, facultyId, "Faculty can create sessions only for assigned sections");
    if section.Err? {
      return Err(section.error);
    }
    if data.classroomId.Some? && !(data.classroomId.value in db.classrooms && db.classrooms[data.classroomId.value].isAvailable) {
      return Err(LookupError("Classroom not found"));
    }
    if exists k :: k in db.sessions && db.sessions[k].sectionId == data.sectionId && db.sessions[k].sessionDate == data.sessionDate
                   && !db.sessions[k].isClosed {
      return Err(ValueError("An open attendance session already exists for this section/date"));
    }
    var total := |ActiveEnrollmentRows(db.enrollments, data.sectionId)|;
    var id := FreshKey(db.sessions);
    db.sessions := db.sessions[id := AttendanceSession(data.sectionId, data.classroomId, data.sessionDate, now, None,
                                                       "regular", false, facultyId, total, 0, 0)];
    r := Ok(id);
  }

  // ---------------------------------------------------------------------
  // Bulk marking.

  /** `present_count` over a prefix of the payload. */
  function PresentCount(items: seq<AttendanceRecordCreate>): nat {
    if items == [] then 0
    else PresentCount(items[..|items| - 1]) + (if items[|items| - 1].status == Present then 1 else 0)
  }

  /** `absent_student_ids`: the students submitted as absent, in order. */
  function AbsentIds(items: seq<AttendanceRecordCreate>): seq<Id> {
    if items == [] then []
    else AbsentIds(items[..|items| - 1]) + (if items[|items| - 1].status == Absent then [items[|items| - 1].studentId] else [])
  }

  /** Every submitted record is counted once, as present or as absent. */
  lemma {:induction false} CountsCoverPayload(items: seq<AttendanceRecordCreate>)
    ensures PresentCount(items) + |AbsentIds(items)| == |items|
  {
    if items != [] {
      CountsCoverPayload(items[..|items| - 1]);
    }
  }

  /** The absent list holds exactly the students submitted as absent. */
  lemma {:induction false} AbsentIdsExact(items: seq<AttendanceRecordCreate>, x: Id)
    ensures x in AbsentIds(items) <==> exists i :: 0 <= i < |items| && items[i].studentId == x && items[i].status == Absent
  {
    if items != [] {
      var init := items[..|items| - 1];
      AbsentIdsExact(init, x);
      if exists i :: 0 <= i < |init| && init[i].studentId == x && init[i].status == Absent {
        var i :| 0 <= i < |init| && init[i].studentId == x && init[i].status == Absent;
        assert items[i] == init[i];
      }
      if exists i :: 0 <= i < |items| && items[i].studentId == x && items[i].status == Absent {
        var i :| 0 <= i < |items| && items[i].studentId == x && items[i].status == Absent;
        if i < |init| {
          assert init[i] == items[i];
        }
      }
    }
  }

  /** The students named in a payload. */
  function IdSet(items: seq<AttendanceRecordCreate>): set<Id> {
    set i | 0 <= i < |items| :: items[i].studentId
  }

  /** A student's row in the session before the marking, if any. */
  ghost function Prior(records: map<Id, AttendanceRecord>, sessionId: Id, studentId: Id): Option<AttendanceRecord> {
    if HasRecord(records, sessionId, studentId) then Some(RecordOf(records, sessionId, studentId)) else None
  }

  /** The row manual marking leaves for a submitted record: status, time and
      marker rewritten, an existing confidence kept. */
  ghost function ManualRow(before: map<Id, AttendanceRecord>, sessionId: Id, item: AttendanceRecordCreate, now: int,
                           facultyId: Id): AttendanceRecord
  {
    Upserted(Prior(before, sessionId, item.studentId), sessionId, item.studentId, item.status, now, ManualMark(facultyId),
             KeepConfidence)
  }

  /** Every submitted student has its manual row, and only their rows in
      the session were touched. */
  ghost predicate ManualRowsWritten(before: map<Id, AttendanceRecord>, after: map<Id, AttendanceRecord>, sessionId: Id,
                                    items: seq<AttendanceRecordCreate>, now: int, facultyId: Id)
  {
    && OneRecordPerStudent(after)
    && (forall j :: 0 <= j < |items| ==> (HasRecord(after, sessionId, items[j].studentId)
                                          && RecordOf(after, sessionId, items[j].studentId) == ManualRow(before, sessionId, items[j], now, facultyId)))
    && ChangedOnly(before, after, sessionId, IdSet(items))
  }

  /** A student whose rows were not touched has the same prior row. */
  lemma {:induction false} PriorUnchanged(before: map<Id, AttendanceRecord>, after: map<Id, AttendanceRecord>, sessionId: Id,
                                          touched: set<Id>, s: Id)
    requires OneRecordPerStudent(before) && OneRecordPerStudent(after)
    requires ChangedOnly(before, after, sessionId, touched) && s !in touched
    ensures Prior(after, sessionId, s) == Prior(before, sessionId, s)
  {
    if HasRecord(before, sessionId, s) {
      RecordOfStable(before, after, sessionId, touched, s);
    }
  }

  lemma {:induction false} ManualRowsStep(a: map<Id, AttendanceRecord>, b: map<Id, AttendanceRecord>, c: map<Id, AttendanceRecord>,
                                          sessionId: Id, items: seq<AttendanceRecordCreate>, item: AttendanceRecordCreate,
                                          now: int, facultyId: Id)
    requires OneRecordPerStudent(a)
    requires ManualRowsWritten(a, b, sessionId, items, now, facultyId) && item.studentId !in IdSet(items)
    requires OneRecordPerStudent(c) && ChangedOnly(b, c, sessionId, {item.studentId})
    requires HasRecord(c, sessionId, item.studentId)
    requires RecordOf(c, sessionId, item.studentId) ==
      Upserted(Prior(b, sessionId, item.studentId), sessionId, item.studentId, item.status, now, ManualMark(facultyId), KeepConfidence)
    ensures ManualRowsWritten(a, c, sessionId, items + [item], now, facultyId)
  {
    PriorUnchanged(a, b, sessionId, IdSet(items), item.studentId);
    var next := items + [item];
    forall j | 0 <= j < |next| ensures HasRecord(c, sessionId, next[j].studentId)
      && RecordOf(c, sessionId, next[j].studentId) == ManualRow(a, sessionId, next[j], now, facultyId)
    {
      if j < |items| {
        assert next[j] == items[j];
        assert items[j].studentId != item.studentId;
        RecordOfStable(b, c, sessionId, {item.studentId}, items[j].studentId);
      }
    }
    assert IdSet(next) == IdSet(items) + {item.studentId} by {
      forall x | x in IdSet(next) ensures x in IdSet(items) + {item.studentId} {
        var i :| 0 <= i < |next| && next[i].studentId == x;
        if i < |items| {
          assert items[i] == next[i];
        }
      }
      forall x | x in IdSet(items) ensures x in IdSet(next) {
        var i :| 0 <= i < |items| && items[i].studentId == x;
        assert next[i] == items[i];
      }
      assert next[|items|] == item;
    }
    ChangedOnlyCompose(a, b, c, sessionId, IdSet(items), {item.studentId});
  }

  /** A name and registration number in the notification summary. */
  datatype Absentee = Absentee(name: string, regNo: string)

  /** The notification part of the result. */
  datatype Notifications = Notifications(studentSms: nat, parentSms: nat, studentEmails: nat, parentEmails: nat,
                                         absentees: seq<Absentee>)

  datatype BulkSummary = BulkSummary(message: string, notifications: Notifications, presentCount: nat, absentCount: nat)

  function AbsenteeOf(s: Student): Absentee {
    Absentee(s.firstName + " " + s.lastName, s.registrationNumber)
  }

  /** `absentees` lists, once each and in an order the database chooses,
      the absent students that have a student row. */
  ghost predicate ListsAbsentees(absentees: seq<Absentee>, ids: seq<Id>, students: map<Id, Student>, absent: set<Id>) {
    && |absentees| == |ids|
    && Distinct(ids)
    && (set x | x in ids) == absent * students.Keys
    && forall i :: 0 <= i < |ids| ==> ids[i] in students && absentees[i] == AbsenteeOf(students[ids[i]])
  }

  lemma {:induction false} AbsenteeStep(absentees: seq<Absentee>, ids: seq<Id>, students: map<Id, Student>,
                                        wanted: set<Id>, remaining: set<Id>, s: Id)
    requires remaining <= wanted && wanted <= students.Keys && s in remaining
    requires ListsAbsentees(absentees, ids, students, wanted - remaining)
    ensures ListsAbsentees(absentees + [AbsenteeOf(students[s])], ids + [s], students, wanted - (remaining - {s}))
  {
    assert (set x | x in ids + [s]) == (set x | x in ids) + {s};
    assert (wanted - (remaining - {s})) * students.Keys == (wanted - remaining) * students.Keys + {s};
    forall i, j | 0 <= i < j < |ids + [s]| ensures (ids + [s])[i] != (ids + [s])[j] {
      if j == |ids| {
        assert ids[i] in (set x | x in ids);
      }
    }
  }

  /** The absentee query: the student rows of the absent ids. */
  method LoadAbsentees(students: map<Id, Student>, absentIds: seq<Id>) returns (absentees: seq<Absentee>, ghost ids: seq<Id>)
    ensures ListsAbsentees(absentees, ids, students, set x | x in absentIds)
  {
    var wanted := (set x | x in absentIds) * students.Keys;
    var remaining := wanted;
    absentees := [];
    ids := [];
    while remaining != {}
      invariant remaining <= wanted
      invariant ListsAbsentees(absentees, ids, students, wanted - remaining)
      decreases |remaining|
    {
      var s :| s in remaining;
      AbsenteeStep(absentees, ids, students, wanted, remaining, s);
      absentees := absentees + [AbsenteeOf(students[s])];
      ids := ids + [s];
      remaining := remaining - {s};
    }
    assert wanted - remaining == wanted * students.Keys;
  }

  lemma PrefixStep<T>(s: seq<T>, i: nat)
    requires i < |s|
    ensures s[..i + 1] == s[..i] + [s[i]] && s[..i + 1][..i] == s[..i]
  {
  }

  lemma {:induction false} CountStep(items: seq<AttendanceRecordCreate>, i: nat)
    requires i < |items|
    ensures PresentCount(items[..i + 1]) == PresentCount(items[..i]) + (if items[i].status == Present then 1 else 0)
    ensures AbsentIds(items[..i + 1]) == AbsentIds(items[..i]) + (if items[i].status == Absent then [items[i].studentId] else [])
  {
    assert items[..i + 1][..i] == items[..i];
  }

  /** One iteration of the marking loop: the `i`-th record is written. */
  method MarkOne(db: Database, ghost start: map<Id, AttendanceRecord>, sessionId: Id, data: seq<AttendanceRecordCreate>,
                 i: nat, facultyId: Id, now: int)
    modifies db`records
    requires i < |data| && Distinct(StudentIds(data)) && OneRecordPerStudent(start)
    requires ManualRowsWritten(start, db.records, sessionId, data[..i], now, facultyId)
    ensures ManualRowsWritten(start, db.records, sessionId, data[..i + 1], now, facultyId)
  {
    var item := data[i];
    assert item.studentId !in IdSet(data[..i]) by {
      forall j | 0 <= j < i ensures data[..i][j].studentId != item.studentId {
        assert StudentIds(data)[j] != StudentIds(data)[i];
      }
    }
    ghost var before := db.records;
    UpsertRecord(db, sessionId, item.studentId, item.status, now, ManualMark(facultyId), KeepConfidence);
    ManualRowsStep(start, before, db.records, sessionId, data[..i], item, now, facultyId);
    PrefixStep(data, i);
  }

  /** The marking loop of `mark_bulk_attendance`: writes each submitted
      record and counts the statuses. */
  method MarkRows(db: Database, sessionId: Id, data: seq<AttendanceRecordCreate>, facultyId: Id, now: int)
    returns (presentCount: nat, absentIds: seq<Id>)
    modifies db`records
    requires OneRecordPerStudent(db.records)
    requires Distinct(StudentIds(data))
    ensures ManualRowsWritten(old(db.records), db.records, sessionId, data, now, facultyId)
    ensures presentCount == PresentCount(data) && absentIds == AbsentIds(data)
  {
    presentCount := 0;
    absentIds := [];
    var i := 0;
    while i < |data|
      invariant 0 <= i <= |data|
      invariant ManualRowsWritten(old(db.records), db.records, sessionId, data[..i], now, facultyId)
      invariant presentCount == PresentCount(data[..i]) && absentIds == AbsentIds(data[..i])
    {
      var item := data[i];
      MarkOne(db, old(db.records), sessionId, data, i, facultyId, now);
      CountStep(data, i);
      if item.status == Present {
        presentCount := presentCount + 1;
      } else {
        absentIds := absentIds + [item.studentId];
      }
      i := i + 1;
    }
    assert data[..i] == data;
  }

  /** `mark_bulk_attendance` by `facultyId` at instant `now`. The payload has
      passed `BulkAttendanceMark`, so no student appears twice. */
  method MarkBulkAttendance(db: Database, sessionId: Id, data: seq<AttendanceRecordCreate>, facultyId: Id, now: int)
    returns (r: Result<BulkSummary>, ghost absenteeIds: seq<Id>)
    modifies db`records, db`sessions
    requires OneRecordPerStudent(db.records)
    requires Distinct(StudentIds(data))
    ensures OneRecordPerStudent(db.records)
    ensures sessionId !in old(db.sessions) ==> r == Err(LookupError("Session not found"))
    ensures sessionId in old(db.sessions) && old(db.sessions[sessionId]).markedBy != facultyId ==>
      r == Err(PermissionError("Faculty can mark only their own sessions"))
    ensures (sessionId in old(db.sessions) && old(db.sessions[sessionId]).markedBy == facultyId
             && old(db.sessions[sessionId]).isClosed) ==> r == Err(ValueError("Attendance session is already closed"))
    ensures (sessionId in old(db.sessions) && old(db.sessions[sessionId]).markedBy == facultyId
             && !old(db.sessions[sessionId]).isClosed
             && ActiveStudentIds(db.enrollments, old(db.sessions[sessionId]).sectionId) == {}) ==>
      r == Err(ValueError("No active students enrolled in this section"))
    ensures (sessionId in old(db.sessions) && old(db.sessions[sessionId]).markedBy == facultyId
             && !old(db.sessions[sessionId]).isClosed
             && ActiveStudentIds(db.enrollments, old(db.sessions[sessionId]).sectionId) != {}
             && !(IdSet(data) <= ActiveStudentIds(db.enrollments, old(db.sessions[sessionId]).sectionId))) ==>
      r == Err(ValueError("Attendance payload includes students not enrolled in this section"))
    ensures r.Ok? <==> (sessionId in old(db.sessions) && old(db.sessions[sessionId]).markedBy == facultyId
                        && !old(db.sessions[sessionId]).isClosed
                        && ActiveStudentIds(db.enrollments, old(db.sessions[sessionId]).sectionId) != {}
                        && IdSet(data) <= ActiveStudentIds(db.enrollments, old(db.sessions[sessionId]).sectionId))
    ensures r.Err? ==> db.records == old(db.records) && db.sessions == old(db.sessions)
    ensures r.Ok? ==>
      && var enrolled := ActiveStudentIds(db.enrollments, old(db.sessions[sessionId]).sectionId);
      && var s := r.value;
      && ManualRowsWritten(old(db.records), db.records, sessionId, data, now, facultyId)
      && s.presentCount == PresentCount(data) && s.absentCount == |AbsentIds(data)|
      && s.message == "Attendance marked successfully"
      && s.notifications.studentSms == s.absentCount && s.notifications.parentSms == s.absentCount
      && s.notifications.studentEmails == s.absentCount && s.notifications.parentEmails == s.absentCount
      && ListsAbsentees(s.notifications.absentees, absenteeIds, db.students, set x | x in AbsentIds(data))
      && db.sessions == old(db.sessions)[sessionId := old(db.sessions[sessionId]).(
           presentCount := s.presentCount, absentCount := s.absentCount, totalStudents := |enrolled|,
           isClosed := true, endTime := Some(now))]
  {
    absenteeIds := [];
    if sessionId !in db.sessions {
      return Err(LookupError("Session not found")), absenteeIds;
    }
    var session := db.sessions[sessionId];
    if session.markedBy != facultyId {
      return Err(PermissionError("Faculty can mark only their own sessions")), absenteeIds;
    }
    if session.isClosed {
      return Err(ValueError("Attendance session is already closed")), absenteeIds;
    }
    var enrolled := ActiveStudentIds(db.enrollments, session.sectionId);
    if enrolled == {} {
      return Err(ValueError("No active students enrolled in this section")), absenteeIds;
    }
    if !(IdSet(data) <= enrolled) {
      return Err(ValueError("Attendance payload includes students not enrolled in this section")), absenteeIds;
    }
    var summary;
    summary, absenteeIds := RecordBulk(db, sessionId, session, enrolled, data, facultyId, now);
    r := Ok(summary);
  }

  /** The writes of an accepted bulk submission: the submitted rows, the
      closed session with its counts, and the summary naming the absentees. */
  method RecordBulk(db: Database, sessionId: Id, session: AttendanceSession, enrolled: set<Id>,
                    data: seq<AttendanceRecordCreate>, facultyId: Id, now: int)
    returns (s: BulkSummary, ghost absenteeIds: seq<Id>)
    modifies db`records, db`sessions
    requires OneRecordPerStudent(db.records)
    requires Distinct(StudentIds(data))
    ensures OneRecordPerStudent(db.records)
    ensures ManualRowsWritten(old(db.records), db.records, sessionId, data, now, facultyId)
    ensures s.presentCount == PresentCount(data) && s.absentCount == |AbsentIds(data)|
    ensures s.message == "Attendance marked successfully"
    ensures s.notifications.studentSms == s.absentCount && s.notifications.parentSms == s.absentCount
    ensures s.notifications.studentEmails == s.absentCount && s.notifications.parentEmails == s.absentCount
    ensures ListsAbsentees(s.notifications.absentees, absenteeIds, db.students, set x | x in AbsentIds(data))
    ensures db.sessions == old(db.sessions)[sessionId := session.(
              presentCount := s.presentCount, absentCount := s.absentCount, totalStudents := |enrolled|,
              isClosed := true, endTime := Some(now))]
  {
    var presentCount, absentIds := MarkRows(db, sessionId, data, facultyId, now);
    var absentCount := |absentIds|;
    db.sessions := db.sessions[sessionId := session.(presentCount := presentCount, absentCount := absentCount,
                                                      totalStudents := |enrolled|, isClosed := true, endTime := Some(now))];
    var absentees;
    absentees, absenteeIds := LoadAbsentees(db.students, absentIds);
    var notifications := Notifications(absentCount, absentCount, absentCount, absentCount, absentees);
    s := BulkSummary("Attendance marked successfully", notifications, presentCount, absentCount);
  }

  /** Every submitted student ends up with the submitted status, marked
      manually by the faculty member at the marking instant. */
  lemma {:induction false} SubmittedStatusRecorded(before: map<Id, AttendanceRecord>, after: map<Id, AttendanceRecord>,
                                                   sessionId: Id, data: seq<AttendanceRecordCreate>, now: int,
                                                   facultyId: Id, j: nat)
    requires ManualRowsWritten(before, after, sessionId, data, now, facultyId) && j < |data|
    ensures HasRecord(after, sessionId, data[j].studentId)
    ensures RecordOf(after, sessionId, data[j].studentId).status == data[j].status
    ensures RecordOf(after, sessionId, data[j].studentId).markedAt == now
    ensures RecordOf(after, sessionId, data[j].studentId).markedBy == ManualMark(facultyId)
    ensures Prior(before, sessionId, data[j].studentId).None? ==> RecordOf(after, sessionId, data[j].studentId).confidence.None?
  {
    assert HasRecord(after, sessionId, data[j].studentId);
  }
}
