/** Student records: lookup, creation of a student together with its login
    user, and partial updates that keep registration numbers, e-mail
    addresses and Firebase UIDs unique. */
module StudentService {
  import opened Common
  import opened Store

  // ---------------------------------------------------------------------
  // Normalisation.

  /** Lower-casing commutes with dropping leading whitespace. */
  lemma {:induction false} TrimStartLower(s: string)
    ensures TrimStart(Lower(s)) == Lower(TrimStart(s))
  {
    if s != [] {
      assert Lower(s)[1..] == Lower(s[1..]);
      if IsWhitespace(s[0]) {
        TrimStartLower(s[1..]);
      }
    }
  }

  /** Lower-casing commutes with dropping trailing whitespace. */
  lemma {:induction false} TrimEndLower(s: string)
    ensures TrimEnd(Lower(s)) == Lower(TrimEnd(s))
  {
    if s != [] {
      assert Lower(s)[..|s| - 1] == Lower(s[..|s| - 1]);
      if IsWhitespace(s[|s| - 1]) {
        TrimEndLower(s[..|s| - 1]);
      }
    }
  }

  /** `s.lower().strip()` is `s.strip().lower()`: the two spellings of the
      e-mail normalisation used across the backend agree. */
  lemma {:induction false} StripLowerCommute(s: string)
    ensures Strip(Lower(s)) == NormalizeEmailText(s)
  {
    TrimStartLower(s);
    TrimEndLower(TrimStart(s));
  }

  // ---------------------------------------------------------------------
  // Uniqueness.

  /** Another student (not `except`) already has the registration number. */
  predicate RegistrationTaken(students: map<Id, Student>, registrationNumber: string, except: Option<Id>) {
    exists k :: k in students && Some(k) != except && students[k].registrationNumber == registrationNumber
  }

  /** Another user (not `except`) already has the e-mail address. */
  predicate EmailTaken(users: map<Id, User>, email: string, except: Option<Id>) {
    exists k :: k in users && Some(k) != except && users[k].email == email
  }

  /** Another user (not `except`) is already linked to the Firebase UID. */
  predicate UidTaken(users: map<Id, User>, uid: string, except: Option<Id>) {
    exists k :: k in users && Some(k) != except && users[k].firebaseUid == Some(uid)
  }

  predicate RegistrationNumbersUnique(students: map<Id, Student>) {
    forall k1, k2 :: k1 in students && k2 in students && k1 != k2 ==>
      students[k1].registrationNumber != students[k2].registrationNumber
  }

  predicate EmailsUnique(users: map<Id, User>) {
    forall k1, k2 :: k1 in users && k2 in users && k1 != k2 ==> users[k1].email != users[k2].email
  }

  /** No two users share a non-empty Firebase UID. */
  predicate UidsUnique(users: map<Id, User>) {
    forall k1, k2 :: k1 in users && k2 in users && k1 != k2 && Truthy(users[k1].firebaseUid) ==>
      users[k1].firebaseUid != users[k2].firebaseUid
  }

  /** Storing a user under a key (new or its own) whose address and
      non-empty UID no other user has keeps both unique. */
  lemma {:induction false} ReplaceUserKeepsUnique(users: map<Id, User>, id: Id, u: User)
    requires (id in users && u.email == users[id].email) || !EmailTaken(users, u.email, Some(id))
    requires (id in users && u.firebaseUid == users[id].firebaseUid)
             || (Truthy(u.firebaseUid) ==> !UidTaken(users, u.firebaseUid.value, Some(id)))
    ensures EmailsUnique(users) ==> EmailsUnique(users[id := u])
    ensures UidsUnique(users) ==> UidsUnique(users[id := u])
  {
    var after := users[id := u];
    if EmailsUnique(users) {
      forall k1, k2 | k1 in after && k2 in after && k1 != k2 ensures after[k1].email != after[k2].email {
        if k1 == id {
          assert k2 in users && Some(k2) != Some(id);
        } else if k2 == id {
          assert k1 in users && Some(k1) != Some(id);
        }
      }
    }
    if UidsUnique(users) {
      forall k1, k2 | k1 in after && k2 in after && k1 != k2 && Truthy(after[k1].firebaseUid)
        ensures after[k1].firebaseUid != after[k2].firebaseUid
      {
        if k1 == id {
          assert k2 in users && Some(k2) != Some(id);
        } else if k2 == id {
          assert k1 in users && Some(k1) != Some(id);
        }
      }
    }
  }

  /** The same with no exception: a new user. */
  lemma {:induction false} InsertUserKeepsUnique(users: map<Id, User>, id: Id, u: User)
    requires id !in users
    requires !EmailTaken(users, u.email, None)
    requires Truthy(u.firebaseUid) ==> !UidTaken(users, u.firebaseUid.value, None)
    ensures EmailsUnique(users) ==> EmailsUnique(users[id := u])
    ensures UidsUnique(users) ==> UidsUnique(users[id := u])
  {
    ReplaceUserKeepsUnique(users, id, u);
  }

  /** Storing a student under a key whose registration number no other
      student has keeps registration numbers unique. */
  lemma {:induction false} ReplaceStudentKeepsUnique(students: map<Id, Student>, id: Id, s: Student)
    requires (id in students && s.registrationNumber == students[id].registrationNumber)
             || !RegistrationTaken(students, s.registrationNumber, Some(id))
    ensures RegistrationNumbersUnique(students) ==> RegistrationNumbersUnique(students[id := s])
  {
    var after := students[id := s];
    if RegistrationNumbersUnique(students) {
      forall k1, k2 | k1 in after && k2 in after && k1 != k2
        ensures after[k1].registrationNumber != after[k2].registrationNumber
      {
        if k1 == id {
          assert k2 in students && Some(k2) != Some(id);
        } else if k2 == id {
          assert k1 in students && Some(k1) != Some(id);
        }
      }
    }
  }

  /** The same for a new student. */
  lemma {:induction false} InsertStudentKeepsUnique(students: map<Id, Student>, id: Id, s: Student)
    requires id !in students
    requires !RegistrationTaken(students, s.registrationNumber, None)
    ensures RegistrationNumbersUnique(students) ==> RegistrationNumbersUnique(students[id := s])
  {
    ReplaceStudentKeepsUnique(students, id, s);
  }

  // ---------------------------------------------------------------------
  // Lookup and creation.

  /** `get_student`. */
  function GetStudent(students: map<Id, Student>, studentId: Id): (r: Result<Student>)
    ensures r.Ok? <==> studentId in students
    ensures r.Ok? ==> r.value == students[studentId]
    ensures r.Err? ==> r.error == LookupError("Student not found")
  {
    if studentId in students then Ok(students[studentId]) else Err(LookupError("Student not found"))
  }

  /** `StudentCreate` after schema validation; `email` is the text of the
      validated address. */
  datatype StudentCreate = StudentCreate(
    registrationNumber: string,
    firstName: string,
    lastName: string,
    phone: Option<string>,
    parentEmail: Option<string>,
    parentPhone: Option<string>,
    program: Option<string>,
    semester: Option<int>,
    section: Option<string>,
    email: string,
    firebaseUid: Option<string>,
    enrollmentYear: int)

  /** The student row `create_student` builds for a new user. */
  function NewStudent(data: StudentCreate, userId: Id): Student {
    Student(userId, Strip(data.registrationNumber), data.firstName, data.lastName, data.phone, data.parentEmail,
            data.parentPhone, data.program, data.semester, data.section, data.enrollmentYear, None)
  }

  /** `create_student`. */
  method CreateStudent(db: Database, data: StudentCreate) returns (r: Result<Id>, ghost userId: Id)
    modifies db`users, db`students
    ensures EmailTaken(old(db.users), NormalizeEmailText(data.email), None) ==> r == Err(ValueError("Email already registered"))
    ensures (!EmailTaken(old(db.users), NormalizeEmailText(data.email), None)
             && RegistrationTaken(old(db.students), Strip(data.registrationNumber), None)) ==>
      r == Err(ValueError("Registration number already exists"))
    ensures (!EmailTaken(old(db.users), NormalizeEmailText(data.email), None)
             && !RegistrationTaken(old(db.students), Strip(data.registrationNumber), None)
             && Truthy(data.firebaseUid) && UidTaken(old(db.users), data.firebaseUid.value, None)) ==>
      r == Err(ValueError("Firebase UID already linked to another account"))
    ensures r.Ok? <==> (!EmailTaken(old(db.users), NormalizeEmailText(data.email), None)
                        && !RegistrationTaken(old(db.students), Strip(data.registrationNumber), None)
                        && !(Truthy(data.firebaseUid) && UidTaken(old(db.users), data.firebaseUid.value, None)))
    ensures r.Err? ==> db.users == old(db.users) && db.students == old(db.students)
    ensures r.Ok? ==>
      && userId !in old(db.users) && r.value !in old(db.students)
      && db.users == old(db.users)[userId := User(NormalizeEmailText(data.email), data.firebaseUid, StudentRole, true)]
      && db.students == old(db.students)[r.value := NewStudent(data, userId)]
    ensures old(EmailsUnique(db.users)) ==> EmailsUnique(db.users)
    ensures old(UidsUnique(db.users)) ==> UidsUnique(db.users)
    ensures old(RegistrationNumbersUnique(db.students)) ==> RegistrationNumbersUnique(db.students)
  {
    userId := 0;
    var email := NormalizedAddress(data.email);
    var registrationNumber := Strip(data.registrationNumber);
    if EmailTaken(db.users, email, None) {
      return Err(ValueError("Email already registered")), userId;
    }
    if RegistrationTaken(db.students, registrationNumber, None) {
      return Err(ValueError("Registration number already exists")), userId;
    }
    if Truthy(data.firebaseUid) && UidTaken(db.users, data.firebaseUid.value, None) {
      return Err(ValueError("Firebase UID already linked to another account")), userId;
    }
    var studentId, newUserId := WriteNewStudent(db, data, email);
    userId := newUserId;
    r := Ok(studentId);
  }

  /** The writes of an accepted creation: a new login user with the
      normalised address and a new student row pointing at it; no address,
      UID or registration number becomes shared. */
  method WriteNewStudent(db: Database, data: StudentCreate, email: string) returns (studentId: Id, userId: Id)
    modifies db`users, db`students
    requires email == NormalizeEmailText(data.email) && !EmailTaken(db.users, email, None)
    requires !RegistrationTaken(db.students, Strip(data.registrationNumber), None)
    requires !(Truthy(data.firebaseUid) && UidTaken(db.users, data.firebaseUid.value, None))
    ensures userId !in old(db.users) && studentId !in old(db.students)
    ensures db.users == old(db.users)[userId := User(email, data.firebaseUid, StudentRole, true)]
    ensures db.students == old(db.students)[studentId := NewStudent(data, userId)]
    ensures old(EmailsUnique(db.users)) ==> EmailsUnique(db.users)
    ensures old(UidsUnique(db.users)) ==> UidsUnique(db.users)
    ensures old(RegistrationNumbersUnique(db.students)) ==> RegistrationNumbersUnique(db.students)
  {
    userId := FreshKey(db.users);
    var user := User(email, data.firebaseUid, StudentRole, true);
    InsertUserKeepsUnique(db.users, userId, user);
    db.users := db.users[userId := user];
    studentId := FreshKey(db.students);
    var student := NewStudent(data, userId);
    InsertStudentKeepsUnique(db.students, studentId, student);
    db.students := db.students[studentId := student];
  }

  /** `email.lower().strip()` as the services spell it. */
  method NormalizedAddress(text: string) returns (email: string)
    ensures email == NormalizeEmailText(text)
  {
    email := Strip(Lower(text));
    StripLowerCommute(text);
  }

  // ---------------------------------------------------------------------
  // Update.

  /** The keys of a `StudentUpdate` that were set. `None` is an absent key;
      for the nullable columns `Some(None)` is an explicit null. */
  datatype StudentPatch = StudentPatch(
    registrationNumber: Option<string>,
    firstName: Option<string>,
    lastName: Option<string>,
    phone: Option<Option<string>>,
    parentEmail: Option<Option<string>>,
    parentPhone: Option<Option<string>>,
    program: Option<Option<string>>,
    semester: Option<Option<int>>,
    section: Option<Option<string>>,
    enrollmentYear: Option<int>,
    email: Option<Option<string>>,
    firebaseUid: Option<Option<string>>)

  predicate IsEmptyPatch(p: StudentPatch) {
    p == StudentPatch(None, None, None, None, None, None, None, None, None, None, None, None)
  }

  /** The address an update stores as the code is written:
      `str(value).lower().strip()`, so an explicit null becomes the text
      of `None`. */
  function StoredEmailAsWritten(value: Option<string>): string {
    if value.Some? then Strip(Lower(value.value)) else Strip(Lower("None"))
  }

  /** An explicit `"email": null` replaces the user's address by "none",
      which is not an e-mail address at all. */
  lemma NullEmailBecomesNone()
    ensures StoredEmailAsWritten(None) == "none"
    ensures !Contains(StoredEmailAsWritten(None), '@')
  {
    assert Lower("None") == "none";
    assert Strip("none") == "none" by {
      TrimStartOfStripped("none");
      TrimEndOfStripped("none");
    }
  }

  /** The address change an update requests: an explicit null requests
      none, a given address its normalised form. */
  function EmailChange(value: Option<string>): (r: Option<string>)
    ensures value.None? ==> r.None?
    ensures value.Some? ==> r == Some(NormalizeEmailText(value.value))
  {
    if value.Some? then Some(NormalizeEmailText(value.value)) else None
  }

  /** Whatever the payload, the stored address stays a normalised one: it is
      either kept or replaced by the normalised form of a submitted text. */
  lemma {:induction false} EmailChangeKeepsNormalized(current: string, value: Option<string>)
    requires NormalizeEmailText(current) == current
    ensures var stored := if EmailChange(value).Some? then EmailChange(value).value else current;
      NormalizeEmailText(stored) == stored
  {
    if value.Some? {
      NormalizeEmailTextIdempotent(value.value);
    }
  }

  /** The first error `update_student` raises for the student `studentId`
      (whose login user is `userId`), or `None` when it goes through. */
  function UpdateError(students: map<Id, Student>, users: map<Id, User>, studentId: Id, p: StudentPatch): (r: Option<Error>)
    requires studentId in students
    ensures IsEmptyPatch(p) ==> r == Some(ValueError("No fields provided for update"))
    ensures r.Some? ==> r.value.ValueError?
    ensures r.None? <==>
      && !IsEmptyPatch(p)
      && (p.registrationNumber.Some? ==> !RegistrationTaken(students, Strip(p.registrationNumber.value), Some(studentId)))
      && (p.email.Some? && p.email.value.Some? ==>
            !EmailTaken(users, NormalizeEmailText(p.email.value.value), Some(students[studentId].userId)))
      && (p.firebaseUid.Some? && Truthy(p.firebaseUid.value) && students[studentId].userId in users ==>
            !UidTaken(users, p.firebaseUid.value.value, Some(students[studentId].userId)))
  {
    var userId := students[studentId].userId;
    if IsEmptyPatch(p) then Some(ValueError("No fields provided for update"))
    else if p.registrationNumber.Some? && RegistrationTaken(students, Strip(p.registrationNumber.value), Some(studentId)) then
      Some(ValueError("Registration number already exists"))
    else if p.email.Some? && EmailChange(p.email.value).Some? && EmailTaken(users, EmailChange(p.email.value).value, Some(userId)) then
      Some(ValueError("Email already registered"))
    else if p.firebaseUid.Some? && userId in users && Truthy(p.firebaseUid.value)
            && UidTaken(users, p.firebaseUid.value.value, Some(userId)) then
      Some(ValueError("Firebase UID already linked to another account"))
    else None
  }

  function Get<T>(o: Option<T>, default: T): T {
    if o.Some? then o.value else default
  }

  /** The `setattr` loop over the keys left after `email` and
      `firebase_uid` were popped. */
  function ApplyStudentPatch(s: Student, p: StudentPatch): (r: Student)
    ensures r.userId == s.userId && r.faceEncoding == s.faceEncoding
    ensures p.registrationNumber.Some? ==> r.registrationNumber == Strip(p.registrationNumber.value)
    ensures p.registrationNumber.None? ==> r.registrationNumber == s.registrationNumber
  {
    s.(
      registrationNumber := if p.registrationNumber.Some? then Strip(p.registrationNumber.value) else s.registrationNumber,
      firstName := Get(p.firstName, s.firstName),
      lastName := Get(p.lastName, s.lastName),
      phone := Get(p.phone, s.phone),
      parentEmail := Get(p.parentEmail, s.parentEmail),
      parentPhone := Get(p.parentPhone, s.parentPhone),
      program := Get(p.program, s.program),
      semester := Get(p.semester, s.semester),
      section := Get(p.section, s.section),
      enrollmentYear := Get(p.enrollmentYear, s.enrollmentYear))
  }

  /** What an update writes to the login user: the new address, and the UID
      (possibly cleared by an explicit null). */
  function ApplyUserPatch(u: User, p: StudentPatch): (r: User)
    ensures r.role == u.role && r.isActive == u.isActive
  {
    u.(email := if p.email.Some? && EmailChange(p.email.value).Some? then EmailChange(p.email.value).value else u.email,
       firebaseUid := if p.firebaseUid.Some? then p.firebaseUid.value else u.firebaseUid)
  }

  /** `update_student`, with an explicit null e-mail treated as no change. */
  method UpdateStudent(db: Database, studentId: Id, p: StudentPatch) returns (r: Result<Student>)
    modifies db`users, db`students
    ensures studentId !in old(db.students) ==> r == Err(LookupError("Student not found"))
    ensures studentId in old(db.students) ==>
      var err := UpdateError(old(db.students), old(db.users), studentId, p);
      && (err.Some? ==> r == Err(err.value))
      && (err.None? ==> r.Ok?)
    ensures r.Err? ==> db.users == old(db.users) && db.students == old(db.students)
    ensures r.Ok? ==>
      && studentId in old(db.students)
      && var userId := old(db.students[studentId]).userId;
      && r.value == ApplyStudentPatch(old(db.students[studentId]), p)
      && db.students == old(db.students)[studentId := r.value]
      && db.users == (if userId in old(db.users) then old(db.users)[userId := ApplyUserPatch(old(db.users[userId]), p)]
                      else old(db.users))
    ensures old(RegistrationNumbersUnique(db.students)) ==> RegistrationNumbersUnique(db.students)
    ensures old(EmailsUnique(db.users)) ==> EmailsUnique(db.users)
    ensures old(UidsUnique(db.users)) ==> UidsUnique(db.users)
  {
    var found := GetStudent(db.students, studentId);
    if found.Err? {
      return Err(found.error);
    }
    ghost var err := UpdateError(db.students, db.users, studentId, p);
    var student := found.value;
    var userId := student.userId;
    if IsEmptyPatch(p) {
      return Err(ValueError("No fields provided for update"));
    }
    if p.registrationNumber.Some? && RegistrationTaken(db.students, Strip(p.registrationNumber.value), Some(studentId)) {
      return Err(ValueError("Registration number already exists"));
    }
    if p.email.Some? && p.email.value.Some? {
      var email := NormalizedAddress(p.email.value.value);
      if EmailTaken(db.users, email, Some(userId)) {
        assert err == Some(ValueError("Email already registered"));
        return Err(ValueError("Email already registered"));
      }
    }
    if p.firebaseUid.Some? && userId in db.users && Truthy(p.firebaseUid.value)
       && UidTaken(db.users, p.firebaseUid.value.value, Some(userId)) {
      return Err(ValueError("Firebase UID already linked to another account"));
    }
    assert err.None?;
    var updated := WriteStudentUpdate(db, studentId, p);
    r := Ok(updated);
  }

  /** The writes of an update that passed its checks: the login user gets
      the new address and UID, the student row the remaining fields; no
      address, UID or registration number becomes shared. */
  method WriteStudentUpdate(db: Database, studentId: Id, p: StudentPatch) returns (updated: Student)
    modifies db`users, db`students
    requires studentId in db.students && UpdateError(db.students, db.users, studentId, p).None?
    ensures var userId := old(db.students[studentId]).userId;
      && updated == ApplyStudentPatch(old(db.students[studentId]), p)
      && db.students == old(db.students)[studentId := updated]
      && db.users == (if userId in old(db.users) then old(db.users)[userId := ApplyUserPatch(old(db.users[userId]), p)]
                      else old(db.users))
    ensures old(RegistrationNumbersUnique(db.students)) ==> RegistrationNumbersUnique(db.students)
    ensures old(EmailsUnique(db.users)) ==> EmailsUnique(db.users)
    ensures old(UidsUnique(db.users)) ==> UidsUnique(db.users)
  {
    var student := db.students[studentId];
    var userId := student.userId;
    if userId in db.users {
      var user := ApplyUserPatch(db.users[userId], p);
      ReplaceUserKeepsUnique(db.users, userId, user);
      db.users := db.users[userId := user];
    }
    updated := ApplyStudentPatch(student, p);
    ReplaceStudentKeepsUnique(db.students, studentId, updated);
    db.students := db.students[studentId := updated];
  }

  /** Re-submitting a student's own registration number, address and UID
      is accepted: the checks leave the student's own rows out. */
  lemma {:induction false} OwnValuesAccepted(students: map<Id, Student>, users: map<Id, User>, studentId: Id, p: StudentPatch)
    requires studentId in students && students[studentId].userId in users
    requires RegistrationNumbersUnique(students) && EmailsUnique(users) && UidsUnique(users)
    requires !IsEmptyPatch(p)
    requires p.registrationNumber.Some? ==> Strip(p.registrationNumber.value) == students[studentId].registrationNumber
    requires p.email.Some? ==> EmailChange(p.email.value) == Some(users[students[studentId].userId].email)
    requires p.firebaseUid.Some? ==> p.firebaseUid.value == users[students[studentId].userId].firebaseUid
    ensures UpdateError(students, users, studentId, p).None?
  {
    var userId := students[studentId].userId;
    if p.registrationNumber.Some? {
      assert !RegistrationTaken(students, Strip(p.registrationNumber.value), Some(studentId)) by {
        forall k | k in students && Some(k) != Some(studentId)
          ensures students[k].registrationNumber != students[studentId].registrationNumber
        {
        }
      }
    }
    if p.email.Some? {
      assert !EmailTaken(users, users[userId].email, Some(userId)) by {
        forall k | k in users && Some(k) != Some(userId) ensures users[k].email != users[userId].email {
        }
      }
    }
    if p.firebaseUid.Some? && Truthy(p.firebaseUid.value) {
      assert !UidTaken(users, p.firebaseUid.value.value, Some(userId)) by {
        forall k | k in users && Some(k) != Some(userId) ensures users[k].firebaseUid != users[userId].firebaseUid {
        }
      }
    }
  }

  /** A taken registration number is refused on creation and on update of
      any other student. */
  lemma {:induction false} TakenRegistrationRefused(students: map<Id, Student>, users: map<Id, User>, owner: Id, other: Id,
                                                    p: StudentPatch)
    requires owner in students && other in students && owner != other
    requires p.registrationNumber == Some(students[owner].registrationNumber)
    requires IsStripped(students[owner].registrationNumber)
    ensures UpdateError(students, users, other, p) == Some(ValueError("Registration number already exists"))
  {
    var registrationNumber := students[owner].registrationNumber;
    assert Strip(registrationNumber) == registrationNumber by {
      TrimStartOfStripped(registrationNumber);
      TrimEndOfStripped(registrationNumber);
    }
    assert !IsEmptyPatch(p);
    assert RegistrationTaken(students, Strip(p.registrationNumber.value), Some(other)) by {
      assert owner in students && Some(owner) != Some(other);
      assert students[owner].registrationNumber == Strip(p.registrationNumber.value);
    }
  }
}
