/** The relational state the services read and write, as one object with a
    map per table (rows keyed by their UUID primary key). Date-times are
    integer seconds, calendar dates integer day numbers and times of day
    seconds since midnight. */
module Store {
  import opened Common
  import opened AttendanceSchema
  import opened FaceMatching

  /** `UserRole`, a `(str, Enum)`; `RoleValue` is the enum's value. */
  datatype Role = StudentRole | FacultyRole | AdminRole | VendorRole

  function RoleValue(r: Role): string {
    match r
    case StudentRole => "student"
    case FacultyRole => "faculty"
    case AdminRole => "admin"
    case VendorRole => "vendor"
  }

  datatype User = User(email: string, firebaseUid: Option<string>, role: Role, isActive: bool)

  datatype Student = Student(
    userId: Id,
    registrationNumber: string,
    firstName: string,
    lastName: string,
    phone: Option<string>,
    parentEmail: Option<string>,
    parentPhone: Option<string>,
    program: Option<string>,
    semester: Option<int>,
    section: Option<string>,
    enrollmentYear: int,
    faceEncoding: Option<seq<real>>)

  /** A course section and the faculty member teaching it. */
  datatype Section = Section(facultyId: Id, sectionName: string)

  /** `SectionEnrollment`; `status` is "active", "dropped" or "completed". */
  datatype Enrollment = Enrollment(sectionId: Id, studentId: Id, status: string)

  datatype Classroom = Classroom(roomNumber: string, isAvailable: bool)

  datatype AttendanceSession = AttendanceSession(
    sectionId: Id,
    classroomId: Option<Id>,
    sessionDate: int,
    startTime: int,
    endTime: Option<int>,
    sessionType: string,
    isClosed: bool,
    markedBy: Id,
    totalStudents: int,
    presentCount: int,
    absentCount: int)

  /** The `marked_by` column: the faculty id for manual marking, the faculty
      id suffixed with `:ai_face` for photo capture. */
  datatype Marker = ManualMark(facultyId: Id) | AiFaceMark(facultyId: Id)

  datatype AttendanceRecord = AttendanceRecord(
    sessionId: Id,
    studentId: Id,
    status: AttendanceStatus,
    markedAt: int,
    markedBy: Marker,
    confidence: Option<real>)

  /** `StudentFaceProfile` (one per student, so keyed by student id). */
  datatype FaceProfile = FaceProfile(
    embedding: RawEmbedding,
    modelName: string,
    sampleCount: nat,
    consentGiven: bool,
    approvalStatus: string,
    reviewedBy: Option<Id>,
    reviewedAt: Option<int>)

  datatype Vendor = Vendor(userId: Id, vendorName: string, isActive: bool)

  datatype MenuItem = MenuItem(
    vendorId: Id,
    itemName: string,
    description: Option<string>,
    price: real,
    category: Option<string>,
    isAvailable: bool,
    preparationTime: Option<int>,
    imageUrl: Option<string>)

  datatype BreakSlot = BreakSlot(slotName: Option<string>, isActive: bool)

  datatype FoodOrder = FoodOrder(
    studentId: Id,
    vendorId: Id,
    slotId: Id,
    orderDate: int,
    totalAmount: real,
    status: string,
    pickupCode: Option<string>,
    pickedUpAt: Option<int>)

  datatype OrderItem = OrderItem(orderId: Id, itemId: Id, quantity: int, itemPrice: real, subtotal: real)

  datatype RemedialClass = RemedialClass(
    sectionId: Id,
    facultyId: Id,
    classroomId: Id,
    scheduledDate: int,
    startTime: int,
    endTime: int,
    remedialCode: string,
    reason: Option<string>,
    codeExpiresAt: int,
    isActive: bool)

  datatype RemedialAttendance = RemedialAttendance(remedialId: Id, studentId: Id, markedAt: int, codeUsed: Option<string>)

  class Database {
    var users: map<Id, User>
    var students: map<Id, Student>
    var sections: map<Id, Section>
    var enrollments: map<Id, Enrollment>
    var classrooms: map<Id, Classroom>
    var sessions: map<Id, AttendanceSession>
    var records: map<Id, AttendanceRecord>
    var faceProfiles: map<Id, FaceProfile>
    var vendors: map<Id, Vendor>
    var menuItems: map<Id, MenuItem>
    var slots: map<Id, BreakSlot>
    var orders: map<Id, FoodOrder>
    var orderItems: map<Id, OrderItem>
    var remedials: map<Id, RemedialClass>
    var remedialAttendance: map<Id, RemedialAttendance>

    /** An empty database. */
    constructor ()
      ensures users == map[] && students == map[] && sections == map[] && enrollments == map[]
      ensures classrooms == map[] && sessions == map[] && records == map[] && faceProfiles == map[]
      ensures vendors == map[] && menuItems == map[] && slots == map[] && orders == map[]
      ensures orderItems == map[] && remedials == map[] && remedialAttendance == map[]
    {
      users := map[];
      students := map[];
      sections := map[];
      enrollments := map[];
      classrooms := map[];
      sessions := map[];
      records := map[];
      faceProfiles := map[];
      vendors := map[];
      menuItems := map[];
      slots := map[];
      orders := map[];
      orderItems := map[];
      remedials := map[];
      remedialAttendance := map[];
    }
  }

  /** A new primary key for a table (`uuid4`, never colliding). */
  method FreshKey<V>(table: map<Id, V>) returns (id: Id)
    ensures id !in table
  {
    FreshIdExists(table.Keys);
    id :| id !in table.Keys;
  }

  /** The students actively enrolled in a section. */
  function ActiveStudentIds(enrollments: map<Id, Enrollment>, sectionId: Id): set<Id> {
    set e | e in enrollments.Values && e.sectionId == sectionId && e.status == "active" :: e.studentId
  }

  /** `active_count` of a section: its active enrollment rows. */
  function ActiveEnrollmentRows(enrollments: map<Id, Enrollment>, sectionId: Id): set<Id> {
    set k | k in enrollments && enrollments[k].sectionId == sectionId && enrollments[k].status == "active"
  }

  // ---------------------------------------------------------------------
  // Attendance records: at most one per session and student.

  predicate SameKey(a: AttendanceRecord, b: AttendanceRecord) {
    a.sessionId == b.sessionId && a.studentId == b.studentId
  }

  /** No two rows record the same student in the same session. The table has
      no constraint for it; both writers keep it by overwriting. */
  predicate OneRecordPerStudent(records: map<Id, AttendanceRecord>) {
    forall r1, r2 :: r1 in records && r2 in records && r1 != r2 ==> !SameKey(records[r1], records[r2])
  }

  predicate HasRecord(records: map<Id, AttendanceRecord>, sessionId: Id, studentId: Id) {
    exists r :: r in records && records[r].sessionId == sessionId && records[r].studentId == studentId
  }

  /** The row of a student in a session, when it exists. */
  ghost function RecordOf(records: map<Id, AttendanceRecord>, sessionId: Id, studentId: Id): (r: AttendanceRecord)
    requires HasRecord(records, sessionId, studentId)
    ensures r in records.Values && r.sessionId == sessionId && r.studentId == studentId
  {
    var k :| k in records && records[k].sessionId == sessionId && records[k].studentId == studentId;
    records[k]
  }

  /** With one row per student, that row is the one `RecordOf` returns. */
  lemma {:induction false} RecordOfIsTheRow(records: map<Id, AttendanceRecord>, k: Id)
    requires OneRecordPerStudent(records) && k in records
    ensures HasRecord(records, records[k].sessionId, records[k].studentId)
    ensures RecordOf(records, records[k].sessionId, records[k].studentId) == records[k]
  {
    var r := records[k];
    assert records[k].sessionId == r.sessionId && records[k].studentId == r.studentId;
    var k2 :| k2 in records && records[k2].sessionId == r.sessionId && records[k2].studentId == r.studentId
      && records[k2] == RecordOf(records, r.sessionId, r.studentId);
    assert SameKey(records[k2], r);
  }

  /** How an overwrite treats the confidence column: manual marking leaves
      it as it was (a new row gets none), photo capture writes it. */
  datatype ConfidenceWrite = KeepConfidence | WriteConfidence(value: Option<real>)

  function Upserted(previous: Option<AttendanceRecord>, sessionId: Id, studentId: Id, status: AttendanceStatus,
                    markedAt: int, markedBy: Marker, confidence: ConfidenceWrite): AttendanceRecord
  {
    var c := match confidence
      case WriteConfidence(v) => v
      case KeepConfidence => if previous.Some? then previous.value.confidence else None;
    AttendanceRecord(sessionId, studentId, status, markedAt, markedBy, c)
  }

  /** Rows other than the ones of `sessionId` and a student in `students`
      are untouched, none is deleted, and every new or rewritten row belongs
      to one of those students in that session. */
  predicate ChangedOnly(before: map<Id, AttendanceRecord>, after: map<Id, AttendanceRecord>, sessionId: Id, students: set<Id>) {
    && (forall k :: k in before ==> k in after)
    && (forall k :: k in before && !(before[k].sessionId == sessionId && before[k].studentId in students) ==> after[k] == before[k])
    && (forall k :: k in after && (k !in before || after[k] != before[k]) ==> after[k].sessionId == sessionId && after[k].studentId in students)
  }

  /** Storing `row` under key `k`, where `k` is either the student's
      existing row or a new key while the student has no row. */
  lemma {:induction false} WriteRow(before: map<Id, AttendanceRecord>, k: Id, row: AttendanceRecord)
    requires OneRecordPerStudent(before)
    requires k in before ==> SameKey(before[k], row)
    requires k !in before ==> !HasRecord(before, row.sessionId, row.studentId)
    ensures OneRecordPerStudent(before[k := row])
    ensures ChangedOnly(before, before[k := row], row.sessionId, {row.studentId})
    ensures HasRecord(before[k := row], row.sessionId, row.studentId)
    ensures RecordOf(before[k := row], row.sessionId, row.studentId) == row
  {
    var after := before[k := row];
    forall r1, r2 | r1 in after && r2 in after && r1 != r2 ensures !SameKey(after[r1], after[r2]) {
      if r1 == k {
        if k in before {
          assert !SameKey(before[k], before[r2]);
        } else {
          assert before[r2].sessionId == after[r2].sessionId;
        }
      } else if r2 == k {
        if k in before {
          assert !SameKey(before[r1], before[k]);
        } else {
          assert before[r1].sessionId == after[r1].sessionId;
        }
      }
    }
    RecordOfIsTheRow(after, k);
  }

  /** Writes the student's row for the session: the existing row is
      overwritten when there is one, otherwise a row is added. */
  method UpsertRecord(db: Database, sessionId: Id, studentId: Id, status: AttendanceStatus,
                      markedAt: int, markedBy: Marker, confidence: ConfidenceWrite)
    modifies db`records
    requires OneRecordPerStudent(db.records)
    ensures OneRecordPerStudent(db.records)
    ensures HasRecord(db.records, sessionId, studentId)
    ensures RecordOf(db.records, sessionId, studentId) ==
      Upserted(if HasRecord(old(db.records), sessionId, studentId) then Some(RecordOf(old(db.records), sessionId, studentId)) else None,
               sessionId, studentId, status, markedAt, markedBy, confidence)
    ensures ChangedOnly(old(db.records), db.records, sessionId, {studentId})
    ensures |db.records| == |old(db.records)| + (if HasRecord(old(db.records), sessionId, studentId) then 0 else 1)
  {
    if k :| k in db.records && db.records[k].sessionId == sessionId && db.records[k].studentId == studentId {
      RecordOfIsTheRow(db.records, k);
      var row := Upserted(Some(db.records[k]), sessionId, studentId, status, markedAt, markedBy, confidence);
      WriteRow(db.records, k, row);
      db.records := db.records[k := row];
    } else {
      var k := FreshKey(db.records);
      var row := Upserted(None, sessionId, studentId, status, markedAt, markedBy, confidence);
      WriteRow(db.records, k, row);
      db.records := db.records[k := row];
    }
  }

  /** A row written for one student is unaffected by writes for other
      students. */
  lemma {:induction false} RecordOfStable(before: map<Id, AttendanceRecord>, after: map<Id, AttendanceRecord>,
                                          sessionId: Id, students: set<Id>, studentId: Id)
    requires OneRecordPerStudent(before) && OneRecordPerStudent(after)
    requires ChangedOnly(before, after, sessionId, students) && studentId !in students
    requires HasRecord(before, sessionId, studentId)
    ensures HasRecord(after, sessionId, studentId)
    ensures RecordOf(after, sessionId, studentId) == RecordOf(before, sessionId, studentId)
  {
    var k :| k in before && before[k].sessionId == sessionId && before[k].studentId == studentId;
    RecordOfIsTheRow(before, k);
    assert after[k] == before[k];
    RecordOfIsTheRow(after, k);
  }

  /** Two successive writes change only the union of what each changed. */
  lemma ChangedOnlyCompose(a: map<Id, AttendanceRecord>, b: map<Id, AttendanceRecord>, c: map<Id, AttendanceRecord>,
                           sessionId: Id, s1: set<Id>, s2: set<Id>)
    requires ChangedOnly(a, b, sessionId, s1) && ChangedOnly(b, c, sessionId, s2)
    ensures ChangedOnly(a, c, sessionId, s1 + s2)
  {
  }

  /** A further write for a student of `students` keeps the change within
      `students`. */
  lemma {:induction false} ChangedOnlyWithin(a: map<Id, AttendanceRecord>, b: map<Id, AttendanceRecord>,
                                             c: map<Id, AttendanceRecord>, sessionId: Id, students: set<Id>, studentId: Id)
    requires ChangedOnly(a, b, sessionId, students) && ChangedOnly(b, c, sessionId, {studentId}) && studentId in students
    ensures ChangedOnly(a, c, sessionId, students)
  {
    ChangedOnlyCompose(a, b, c, sessionId, students, {studentId});
    assert students + {studentId} == students;
  }
}
