# Campus management backend: a Dafny model of its rules

The modelled system is a campus-management backend: a FastAPI service with a React front end. It offers these features:
- manual and face-recognition attendance;
- an RTSP stream that captures attendance from a camera;
- a food-ordering flow between students and canteen vendors;
- remedial classes whose attendance is marked with a short code;
- student records;
- Firebase-based sign-in.

This project models the rules behind those features. It also proves the properties the code promises. The code states these rules as SQLAlchemy queries, asyncio tasks and numpy calls.

Layout: one Dafny module per source file of the core.
- `common.dfy` holds the shared vocabulary: `Option`, `Result`, the exception kinds, and Python's `strip`/`lower` restricted to ASCII characters.
- `store.dfy` holds the relational state. It is one class, `Store.Database`, with a map per table keyed by primary key.
- `store.dfy` also holds the shared "overwrite the student's row, else add one" write of attendance records.

How the source maps onto Dafny:
- **Services that change rows** become methods that `modify` only the tables they write. Each method's `ensures` gives the error of each failing check in the source's order, the condition under which the call succeeds, and the whole new state. It also lists the invariants the method preserves:
  - unique e-mails, Firebase UIDs and registration numbers;
  - unique pickup and remedial codes;
  - one attendance row per student and session;
  - one open session per section and day;
  - one remedial mark per student;
  - names that are distinct per vendor;
  - code expiry consistent with the class end.
- **Loops of the source** are `while` loops carrying their invariants:
  - face matching, roster merge, bulk marking and order pricing;
  - the absentee query and profile resolution;
  - the code redraw loops.
- **The stream manager** is a class holding a map of runtime objects. The capture loop is a function over the sequence of events it observes.
- **Validators and the two front-end files** are functions with lemmas.

Outside the model, and therefore inputs:
- **Clock**: the clock is a `now` parameter.
- **Random codes**: the random code generator is a nondeterministic choice, or the stream of `draws` it produces.
- **uuid4**: a fresh key not yet in the table.
- **Outside outcomes**: these are parameters:
  - face detection and embedding extraction;
  - the Euclidean norm that numpy computes;
  - the Firebase verifiers' outcomes;
  - the `UUID(...)` parse.

Date-times are integer seconds, dates are day numbers and times of day are seconds since midnight. Prices and similarity scores are reals.

Two behaviours of the code that a reader might not expect:
- **Tied profiles**: two face profiles with identical embeddings and a single face produce one match and no proxy alert. The strict `>` of the scan keeps the first profile, so no collision is recorded.
- **Stopping a finished stream**: `stop_stream` turns a runtime that had already completed or failed into "stopped". Terminal stream states are therefore not terminal.

## Model

| member | source | states |
|---|---|---|
| Common.DistinctIffSetSize | backend/app/schemas/attendance.py:27-28 | the `len(ids) != len(set(ids))` test detects exactly the lists with a repeated element |
| Common.StripIdempotent | backend/app/services/student_service.py:75-76 | stripping an already stripped text changes nothing |
| Common.NormalizeEmailTextIdempotent | backend/app/schemas/user.py:16 | strip-then-lower-case applied to its own output changes nothing |
| Common.LowerIdempotent | backend/app/schemas/user.py:16 | lower-casing twice is lower-casing once |
| Common.LowerKeepsStripped | backend/app/schemas/user.py:16 | lower-casing a stripped text leaves it stripped, so the normalised address has no surrounding whitespace |
| Helpers.AlphabetChar | backend/app/utils/helpers.py:7 | the 36 code characters are exactly `A`..`Z` followed by `0`..`9` |
| Helpers.GenerateUniqueCode | backend/app/utils/helpers.py:5-8 | a generated code has the requested length and only upper-case letters and digits |
| Helpers.PickUnusedCode | backend/app/services/remedial_service.py:43-47 | the redraw loop returns the first drawn code that is not in use; every earlier draw was in use |
| Helpers.IsCodeExpired | backend/app/utils/helpers.py:10-12 | a code is still valid up to and including its expiry instant and expired at every later instant |
| Helpers.NotExpiredAtExpiry | backend/app/utils/helpers.py:10-12 | expiry is a strict comparison: a code is still valid at exactly its expiry instant |
| Helpers.ExpiryIsMonotone | backend/app/utils/helpers.py:10-12 | once expired, a code stays expired as the clock advances |
| UserSchema.NormalizeEmail | backend/app/schemas/user.py:13-19 | the address is accepted iff its stripped, lower-cased form has an `@` that is neither first nor last; the accepted value is that form and has no surrounding whitespace |
| UserSchema.AcceptedEmailShape | backend/app/schemas/user.py:17-18 | an accepted address has at least three characters and does not start or end with `@` |
| UserSchema.NormalizeEmailIdempotent | backend/app/schemas/user.py:16-19 | an accepted address re-normalises to itself |
| StudentSchema.ValidateSemester | backend/app/schemas/student.py:22-29 | the semester passes iff absent or in 1..12, and is returned unchanged |
| StudentSchema.ValidateEnrollmentYear | backend/app/schemas/student.py:31-36 | on create the year passes iff it is in 2000..2100, and is returned unchanged |
| StudentSchema.ValidateEnrollmentYearUpdate | backend/app/schemas/student.py:62-69 | on update an absent year passes; a given one passes iff it is in 2000..2100 |
| StudentSchema.YearUpdateAgreesWithCreate | backend/app/schemas/student.py:31-36 | a year given on update is accepted exactly when create would accept it |
| AttendanceSchema.ParseStatus | backend/app/schemas/attendance.py:7 | only "present" and "absent" parse, each to the status that prints back to it |
| AttendanceSchema.StatusRoundTrip | backend/app/schemas/attendance.py:7 | printing a status and parsing it back yields the status |
| AttendanceSchema.StudentIds | backend/app/schemas/attendance.py:27 | the id list has one entry per record, in order |
| AttendanceSchema.ValidateBulkAttendance | backend/app/schemas/attendance.py:21-30 | a record list is accepted iff it is non-empty and names no student twice; an accepted list is returned as it was |
| AttendanceSchema.RepeatedStudentRejected | backend/app/schemas/attendance.py:24-29 | any list naming a student twice is refused, whatever the statuses |
| RemedialSchema.ValidateCreateEndTime | backend/app/schemas/remedial.py:14-20 | on create, `end_time` passes iff `start_time` is missing from the validated data or end > start; it is returned unchanged |
| RemedialSchema.ValidateUpdateEndTime | backend/app/schemas/remedial.py:32-40 | on update, an absent end passes; otherwise it is checked only against a start given in the same payload |
| RemedialSchema.UpdateAgreesWithCreate | backend/app/schemas/remedial.py:32-40 | with an end time present, the update and create validators make the same decision |
| FoodSchema.LiteralSetSizes | backend/app/schemas/food.py:7-8 | the category and status literals are each five distinct values |
| FoodSchema.ValidateMenuItemCreate | backend/app/schemas/food.py:11-22 | a create payload is accepted iff: name length 1..200; description ≤ 1000; price > 0; category one of the five literals; preparation time 1..180; image URL ≤ 500 |
| FoodSchema.ValidateMenuItemUpdate | backend/app/schemas/food.py:25-32 | each given field of an update obeys the create bound; absent fields pass |
| FoodSchema.FullUpdateOfValidCreate | backend/app/schemas/food.py:25-32 | an update carrying every field of a valid create payload is valid |
| FoodSchema.ValidateFoodOrderCreate | backend/app/schemas/food.py:51-66 | an order payload is accepted iff it has at least one line and every quantity is in 1..20 |
| AiSchema.ParseStreamStartRequest | backend/app/schemas/ai.py:84-88 | a stream start is refused iff the URL length is outside 8..1024, or a given threshold is outside [0.4, 0.99], or given late minutes are outside 1..120; absent values take 0.75 and 10 |
| AiSchema.DefaultsAreValid | backend/app/schemas/ai.py:84-88 | a body giving only the session and a plausible URL is accepted with the defaults |
| FaceMatching.NormalizeEmbedding | backend/app/services/ai_service.py:37-45 | non-1-D input and norms ≤ 1e-8 are refused with their messages; otherwise each entry is divided by the norm |
| FaceMatching.NormalizedIsUnit | backend/app/services/ai_service.py:37-45 | a normalised embedding has unit length |
| FaceMatching.DotSymmetric | backend/app/services/ai_service.py:48-49 | the dot product is symmetric in its arguments |
| FaceMatching.CosineSimilarity | backend/app/services/ai_service.py:48-49 | the score is symmetric, and a vector scores its squared length against itself, so a unit vector scores 1 |
| FaceMatching.SelfDot | backend/app/services/ai_service.py:48-49 | a vector's dot product with itself is its squared length |
| FaceMatching.ScanUpTo | backend/app/services/ai_service.py:276-284 | the best profile index found so far is always one of the profiles scanned |
| FaceMatching.ScanFindsFirstMaximum | backend/app/services/ai_service.py:277-284 | the scan finds no profile iff every score is ≤ -1; otherwise it finds the first profile reaching the maximum score, so ties go to the earlier profile |
| FaceMatching.Claim | backend/app/services/ai_service.py:289-296 | a first claim is stored; a repeated claim adds exactly one proxy alert and replaces the stored score only if strictly higher; other students are untouched |
| FaceMatching.EntriesPlusAlertsCountAcceptedFaces | backend/app/services/ai_service.py:286-296 | entries plus proxy alerts equal the accepted faces, so matched students never exceed detected faces |
| FaceMatching.EntriesAreProfiledAndAboveThreshold | backend/app/services/ai_service.py:286-296 | only profiled students get an entry, each entry's score reaches the threshold, and matched students never exceed the profiles |
| FaceMatching.EntryIsBestClaim | backend/app/services/ai_service.py:289-296 | a student has an entry iff some accepted face was assigned to it, and the entry is the best of those scores |
| FaceMatching.MatchDetectedFaces | backend/app/services/ai_service.py:276-296 | the nested matching loops compute exactly the claim-by-claim fold over the detected faces |
| AiService.ResolveProfileEmbeddings | backend/app/services/ai_service.py:212-245 | the roster is the active students having a student row; the profiles are exactly the approved profiles of active students whose vector normalises, each once, normalised |
| AiService.CaptureRow | backend/app/services/ai_service.py:315-346 | a roster student's row is present iff matched, and has a confidence iff present |
| AiService.LateDetections | backend/app/services/ai_service.py:298-300 | the late count is either 0 or the matched count, and 0 unless the capture is after start plus the late threshold |
| AiService.ListRoster | backend/app/services/ai_service.py:302 | the listed roster names every roster student exactly once and nothing else |
| AiService.PresentIn | backend/app/services/ai_service.py:315-327 | the present students picked from a list are among the list's members and are all matched |
| AiService.PresentInIsMatchedRoster | backend/app/services/ai_service.py:315-327 | from a repeat-free list, the present students are listed once each, are as a set exactly the matched members of the list, and are as many as those |
| AiService.MergeRoster | backend/app/services/ai_service.py:302-346 | walking the listed roster, every listed student ends up with exactly its capture row (existing rows overwritten, one row per student kept), only rows of roster students in the session change, and the present students are tallied in list order with their registration numbers and the present and absent counts |
| AiService.MergeCoversRoster | backend/app/services/ai_service.py:302-355 | once the whole repeat-free roster list is merged: every roster student has its capture row, present = matched roster students, present + absent = roster size, the registration numbers of the present students are listed once each, and the session is closed with those counts |
| AiService.CaptureMatched | backend/app/services/ai_service.py:272-355 | matching the faces, merging the roster and closing the session leaves one row per student, changes only this session entry, and gives a capture as the source promises for that roster |
| AiService.CaptureForSession | backend/app/services/ai_service.py:265-355 | for an open session of the faculty member: a detection failure is passed on, then an empty section roster and then a section without usable approved profiles are refused with their messages; nothing is written on error. The call succeeds iff detection worked, the roster and the usable profiles are non-empty and every face has the profiles' dimension, and then the capture is complete for the section roster and the resolved profiles |
| AiService.CaptureAttendanceFromPhoto | backend/app/services/ai_service.py:248-355 | the errors come in order: missing session, another faculty's session, closed session, detection failure, empty roster, no usable profiles; nothing is written on error. The call succeeds iff the session is an open one of this faculty member, detection worked, the roster and the usable profiles are non-empty and the dimensions agree. On success the faces are matched against the approved profiles, every roster student has its capture row, one row per student is kept, and the session is closed as "ai_face" with the counts |
| AiService.EnrollFaceProfile | backend/app/services/ai_service.py:91-145 | enrollment needs consent, then 5..10 samples, then an existing student; extraction errors propagate. On success the profile is reset to "pending" with the review cleared, and the legacy encoding is kept in step |
| AiService.UnapprovedProfileNotUsable | backend/app/services/ai_service.py:227-234 | a profile that is not approved never takes part in a capture |
| AiService.EnrollmentWithdrawsFromCapture | backend/app/services/ai_service.py:118-128 | re-enrolling removes the student from captures until the new profile is approved |
| AiService.ReviewFaceEnrollment | backend/app/services/ai_service.py:185-209 | a missing profile and then an action other than approve/reject are refused; approve becomes "approved" and reject "rejected", stamped with the reviewer and instant |
| AiService.ReviewDecidesUsability | backend/app/services/ai_service.py:195-200 | after a review, the profile is usable in a section iff it was approved, the student is actively enrolled, and the vector normalises |
| AiService.ClassifyRushLevel | backend/app/services/ai_service.py:509-514 | the level is one of the three literals; "high" iff score ≥ 18 or active ≥ 20; "low" iff score < 8 and active < 8 |
| AiService.RushLevelMonotone | backend/app/services/ai_service.py:509-514 | more load never gives a lower rush level |
| AiService.PredictedWait | backend/app/services/ai_service.py:572-577 | the wait is at least 15 minutes when high, at least 6 when moderate, and at least 2 always |
| AiService.PredictedWaitMonotone | backend/app/services/ai_service.py:572-577 | at a fixed level the wait never decreases as active orders grow |
| AiService.PredictedWaitFollowsLevel | backend/app/services/ai_service.py:572-577 | for the same load a higher level never predicts a shorter wait |
| AiStream.ParseStatus | backend/app/services/ai_stream_service.py:25 | a status text parses only to the status that prints as it |
| AiStream.StatusTextRoundTrip | backend/app/services/ai_stream_service.py:25 | every runtime status prints to a distinct text that parses back to it |
| AiStream.EffectiveTimeout | backend/app/services/ai_stream_service.py:113 | the frame timeout is the configured one, but never below 30 seconds |
| AiStream.RunLoopEnds | backend/app/services/ai_stream_service.py:119-171 | the loop ends stopped, failed or completed, or is still in its status when the observed passes run out; the frame counter never decreases and the stop request is left alone |
| AiStream.Run | backend/app/services/ai_stream_service.py:103-171 | whatever the runtime's status before, a run leaves it running, stopped, failed or completed, never "starting" or "stopping", and the frame counter never decreases |
| AiStream.RunLoopCountsFrames | backend/app/services/ai_stream_service.py:119-143 | the frame counter grows by exactly the passes that read a frame: unopened sources and failed reads do not count, encode failures do |
| AiStream.RunLoopOutcome | backend/app/services/ai_stream_service.py:119-171 | the loop fails only on the deadline, with the timeout message. Pipeline exceptions are retried. It completes iff one capture succeeded, with the result and "capture_completed" recorded. It is still running only if no pass completed |
| AiStream.MissingCaptureFails | backend/app/services/ai_stream_service.py:104-111 | without the capture backend the run fails with its message and processes no frame |
| AiStream.LoopFailsAtDeadline | backend/app/services/ai_stream_service.py:113-124 | the first pass past the deadline, after passes that were neither stopped nor completed, ends the loop failed with the timeout message at that pass's instant |
| AiStream.DeadlineFails | backend/app/services/ai_stream_service.py:113-124 | the first pass past `startAt + timeout`, after passes that were neither stopped nor completed, fails the run with the timeout message, never earlier than 30 s after the start |
| AiStream.AtMostOneCapture | backend/app/services/ai_stream_service.py:162-168 | a runtime records at most one successful capture |
| AiStream.StreamRuntime.constructor | backend/app/services/ai_stream_service.py:18-36 | a new runtime is "starting", with zero counters and no error, reason, result or stop request |
| AiStream.StreamRuntime.SetProgress | backend/app/services/ai_stream_service.py:83-88 | the runtime's mutable fields become exactly the given progress |
| AiStream.StreamRuntime.Serialize | backend/app/services/ai_stream_service.py:175-190 | the report carries the runtime's id, counters and a status text that parses back to its status |
| AiStream.StreamManager.constructor | backend/app/services/ai_stream_service.py:40-42 | the registry starts empty |
| AiStream.StreamManager.StartStream | backend/app/services/ai_stream_service.py:44-68 | a start is refused, with the registry unchanged, iff a runtime of the session is starting or running. Otherwise exactly one fresh "starting" runtime with zero counters is registered under a new id. Runtimes stay keyed by their own id, with at most one active per session |
| AiStream.StreamManager.GetRuntime | backend/app/services/ai_stream_service.py:96-101 | the lookup succeeds iff the id is registered; otherwise "Stream not found" |
| AiStream.StreamManager.GetStreamStatus | backend/app/services/ai_stream_service.py:92-94 | an unknown id gives "Stream not found"; a known id reports its runtime, changing nothing |
| AiStream.StreamManager.StopStream | backend/app/services/ai_stream_service.py:70-90 | an unknown id gives "Stream not found" and changes nothing. Otherwise the stop request and reason are recorded, and the runtime never stays "stopping". It is "stopped", unless the awaited task had not started and failed at once for want of the capture backend; already completed or failed runtimes become "stopped" |
| AiStream.StreamManager.RunStream | backend/app/services/ai_stream_service.py:103-173 | the runtime ends in the state the capture-loop function gives for the observed events, and the registry stays valid |
| AiStream.StreamRuntime.RunTicks | backend/app/services/ai_stream_service.py:103-173 | the runtime's fields end as the capture-loop function gives for the observed events: running from the start instant, then stopped, timed out, failed or completed as the first deciding tick says |
| Store.UpsertRecord | backend/app/services/attendance_service.py:206-220 | the student's row in the session is overwritten when it exists, else exactly one row is added; no other student's or session's row changes, and one row per student and session is kept |
| Store.RecordOfIsTheRow | backend/app/services/attendance_service.py:198 | with one row per student and session, looking a row up by session and student finds that row |
| AttendanceService.InsertByRegistration | backend/app/services/attendance_service.py:70-75 | inserting a student into a list ordered by registration number keeps it ordered and adds exactly that student |
| AttendanceService.OwnedSection | backend/app/services/attendance_service.py:14-18 | a missing section gives "Section not found", another faculty's section the caller's permission message, an owned section itself |
| AttendanceService.ListSectionStudents | backend/app/services/attendance_service.py:53-75 | the section errors come first. Otherwise the result lists each actively enrolled student with a student row exactly once, in ascending registration number, and is empty without active enrollments |
| AttendanceService.CreateSession | backend/app/services/attendance_service.py:110-154 | the errors come in order: missing section, not owner, unavailable classroom, open session that day. A new open "regular" session records the active-enrollment count, and a section never has two open sessions on one day |
| AttendanceService.CountsCoverPayload | backend/app/services/attendance_service.py:200-226 | every submitted record is counted once, as present or as absent |
| AttendanceService.AbsentIdsExact | backend/app/services/attendance_service.py:222-226 | the absent list holds exactly the students submitted as absent |
| AttendanceService.LoadAbsentees | backend/app/services/attendance_service.py:239-248 | the absentee summary lists each absent student having a row once, by name and registration number |
| AttendanceService.MarkOne | backend/app/services/attendance_service.py:205-220 | one pass of the marking loop extends the written rows from the first `i` submitted records to the first `i + 1` |
| AttendanceService.MarkRows | backend/app/services/attendance_service.py:204-226 | each submitted student's row is written or overwritten, only those rows change, and the counts are those of the payload |
| AttendanceService.MarkBulkAttendance | backend/app/services/attendance_service.py:162-263 | the errors come in order: missing session, other faculty, closed, no active students, unenrolled student; nothing is written on error. On success every row is written with one row per student, the session is closed with the counts and the enrolled total, and all four notification counters equal the absent count |
| AttendanceService.RecordBulk | backend/app/services/attendance_service.py:200-263 | an accepted submission writes every submitted row (one row per student kept, nothing outside the submission touched), closes the session with the present and absent counts and the enrolled total, and reports the absentees with all four notification counters equal to the absent count |
| AttendanceService.SubmittedStatusRecorded | backend/app/services/attendance_service.py:205-220 | every submitted student ends with the submitted status, marked manually at the marking instant, keeping any earlier confidence |
| RemedialService.EnsureValidTimeWindow | backend/app/services/remedial_service.py:11-13 | a window is valid iff it ends strictly after it starts |
| RemedialService.ComputeCodeExpiry | backend/app/services/remedial_service.py:16-18 | the code expires exactly 30 minutes after the class's end instant on its date |
| RemedialService.CodeUsableUntilGraceEnds | backend/app/services/remedial_service.py:16-18 | a code is unexpired exactly until 30 minutes after the class ends |
| RemedialService.ExpiryFollowsEnd | backend/app/services/remedial_service.py:16-18 | a later class end gives a later expiry |
| RemedialService.CreateRemedialClass | backend/app/services/remedial_service.py:21-72 | the errors come in order: invalid window, missing section, another faculty's section, unavailable classroom. A created class has a well-formed six-character code new among all classes, and expires 30 minutes after its end. Codes stay unique and classes consistent |
| RemedialService.GetRemedialClass | backend/app/services/remedial_service.py:102-106 | the lookup succeeds iff the class exists; otherwise "Remedial class not found" |
| RemedialService.ApplyUpdate | backend/app/services/remedial_service.py:129-133 | an update never changes the owner or code, and leaves the expiry alone unless the date or end time is in the payload |
| RemedialService.MergedWindowCheck | backend/app/services/remedial_service.py:11-13 | the merged window passes iff both ends are non-null and it ends after it starts; a null end raises TypeError, otherwise the error is the invalid-window ValueError |
| RemedialService.UpdateKeepsConsistent | backend/app/services/remedial_service.py:125-133 | an accepted update of a consistent class leaves its window valid and its expiry 30 minutes after its end |
| RemedialService.UpdateRemedialClass | backend/app/services/remedial_service.py:109-142 | the errors come in order: missing class, empty payload, faculty not owner, a merged window with a null start or end (TypeError) or ending too early, a null date reaching the expiry computation (TypeError); nothing changes on error. The update succeeds iff none of these applies; then the merged class is stored, keeping all classes consistent and codes unique |
| RemedialService.MarkRemedialAttendance | backend/app/services/remedial_service.py:144-192 | the first failing check decides: invalid or inactive code, expired, already marked, not enrolled; nothing is written on failure. Success inserts exactly one row with the code used, keeping one mark per student and class |
| RemedialService.SecondMarkRefused | backend/app/services/remedial_service.py:160-167 | after a successful mark, the student counts as marked for that class |
| RemedialService.UniqueCodeFindsOneClass | backend/app/services/remedial_service.py:148-151 | with unique codes, an active code identifies at most one class |
| StudentService.StripLowerCommute | backend/app/services/student_service.py:75 | `lower().strip()` and `strip().lower()` give the same address |
| StudentService.NormalizedAddress | backend/app/services/student_service.py:75 | the service's address normalisation is strip-and-lower-case |
| StudentService.GetStudent | backend/app/services/student_service.py:66-70 | the lookup succeeds iff the student exists; otherwise "Student not found" |
| StudentService.CreateStudent | backend/app/services/student_service.py:73-124 | the errors come in order: taken address, taken registration number, non-empty UID already linked; nothing is written on error. Otherwise exactly one active student user (normalised address) and one student (stripped number) are added, keeping all three uniquenesses |
| StudentService.WriteNewStudent | backend/app/services/student_service.py:95-120 | after the checks pass: exactly one new active student user with the normalised address and one new student row linked to it are added, under unused keys, keeping addresses, UIDs and registration numbers unique |
| StudentService.NullEmailBecomesNone | backend/app/services/student_service.py:148-149 | as written, an explicit null address is stored as the text "none", which has no `@` |
| StudentService.EmailChange | backend/app/services/student_service.py:148-158 | a given address requests its normalised form; a null requests no change |
| StudentService.EmailChangeKeepsNormalized | backend/app/services/student_service.py:148-158 | whatever the payload, the stored address remains a normalised one |
| StudentService.ApplyStudentPatch | backend/app/services/student_service.py:175-176 | the payload keys are written to the student; the registration number is stored stripped; the login user and face encoding stay |
| StudentService.ApplyUserPatch | backend/app/services/student_service.py:157-172 | writing the address and UID to the login user keeps its role and active flag |
| StudentService.UpdateError | backend/app/services/student_service.py:131-172 | an empty payload is refused first; every refusal is a ValueError; the update goes through iff the payload is non-empty and neither the stripped registration number, nor the normalised address, nor a given UID is held by another student or user |
| StudentService.UpdateStudent | backend/app/services/student_service.py:127-185 | a missing student and then the first failing check decide the error; nothing changes on error. Otherwise the student and its login user get the patch, keeping registration numbers, addresses and UIDs unique |
| StudentService.WriteStudentUpdate | backend/app/services/student_service.py:147-181 | after the checks pass: the login user (when present) gets the new address and UID and the student row the other given fields, nothing else changes, and registration numbers, addresses and UIDs stay unique |
| StudentService.OwnValuesAccepted | backend/app/services/student_service.py:134-171 | re-submitting one's own registration number, address and UID is accepted |
| StudentService.TakenRegistrationRefused | backend/app/services/student_service.py:134-145 | another student's registration number is refused on update |
| FoodService.AllowedNext | backend/app/services/food_service.py:12-18 | a status's successors are known statuses other than "pending"; an unknown status has none |
| FoodService.TransitionsMoveForward | backend/app/services/food_service.py:12-18 | every allowed transition goes between known statuses and strictly forward, never back to "pending"; completed, cancelled and unknown statuses have no successor |
| FoodService.ActiveStatusesAreTheUnfinished | backend/app/services/food_service.py:12-18 | the statuses the rush prediction counts as active are exactly those with a successor |
| FoodService.GetActiveVendorByUser | backend/app/services/food_service.py:21-26 | the lookup finds an active vendor of the user iff there is one |
| FoodService.UpdateOrderStatus | backend/app/services/food_service.py:339-372 | the errors come in order: missing order, no vendor profile, another vendor's order, a transition not in the table; nothing changes on error. The update succeeds when the order exists, the user's only active vendor owns it and the transition is in the table; then only the status changes, and the pickup time is set exactly on "completed" |
| FoodService.CompletedOnlyFromReady | backend/app/services/food_service.py:12-18 | an order can be completed exactly when it is ready |
| FoodService.LineErrorDecides | backend/app/services/food_service.py:251-270 | a line is refused for a non-positive quantity first, then for repeating an earlier line's item; it passes iff its quantity is positive, no earlier line has its item and the vendor offers the item |
| FoodService.PriceOrderLines | backend/app/services/food_service.py:247-281 | the first failing line decides the error; otherwise every line is priced from the menu and the total is Σ price × quantity |
| FoodService.AcceptedLinesAreSound | backend/app/services/food_service.py:251-270 | an accepted order has positive quantities, no repeated item, and only items the vendor offers |
| FoodService.InsertOrderItems | backend/app/services/food_service.py:299-308 | one order-item row per priced line is added under fresh keys |
| FoodService.CreateFoodOrder | backend/app/services/food_service.py:228-315 | the errors come in order: inactive vendor, inactive slot, then the error of the first bad line, every earlier line being acceptable; nothing is written on error. Otherwise one "pending" order with the lines' total and a new six-character pickup code is added with its item rows; pickup codes stay unique |
| FoodService.StoreOrder | backend/app/services/food_service.py:283-310 | an accepted order is added under a new key as "pending" with the lines' total and a six-character pickup code no order had, no other order changes, one item row per priced line is added, and pickup codes stay unique |
| FoodService.ResolveCatalogVendor | backend/app/services/food_service.py:129-146 | a vendor gets its own active vendor row; an admin needs a present, parseable id of an active vendor; other roles are refused |
| FoodService.FreshNameDiffers | backend/app/services/food_service.py:148-157 | a stripped name the vendor does not have differs, ignoring case, from every item name of that vendor |
| FoodService.InsertKeepsNamesDistinct | backend/app/services/food_service.py:148-157 | adding an item whose name the vendor does not already have keeps names distinct per vendor |
| FoodService.CreateMenuItem | backend/app/services/food_service.py:121-176 | the role and vendor errors come first: a vendor with no active vendor row, an admin without `vendor_id`, an admin `vendor_id` that does not parse ("Invalid vendor_id format") or names no active vendor ("Vendor not found"). A vendor is resolved exactly when the actor is a vendor with an active vendor row, or an admin whose `vendor_id` parses to an active vendor. Then a case-insensitive duplicate name for that vendor is refused; the call succeeds exactly when a vendor is resolved and the name is free, adding one item with the stripped name and keeping names distinct per vendor |
| FoodService.ApplyPatch | backend/app/services/food_service.py:212-216 | a patch never changes the vendor; a given name is stored stripped; an empty patch changes nothing |
| FoodService.ApplyPatchIdempotent | backend/app/services/food_service.py:212-216 | applying the same update twice is applying it once |
| FoodService.UpdateMenuItem | backend/app/services/food_service.py:179-225 | the errors come in order: missing item, no vendor profile, another vendor's item, wrong role, bad new vendor id; nothing changes on error. The update succeeds for an admin whose new vendor id, if any, parses and names an active vendor, and for a vendor user whose only active vendor owns the item; then the patch is applied, and only an admin can move the item to another active vendor |
| FoodService.RenameCanDuplicate | backend/app/services/food_service.py:212-216 | an update does not re-check names, so a rename can give a vendor two items of the same name |
| AuthUtils.NormalizeSubject | backend/app/utils/auth.py:89-95 | the address is present iff the claim is non-empty, and then stripped and lower-cased; the UID is `uid`, else `sub`, stripped |
| AuthUtils.NormalizedSubjectIsStable | backend/app/utils/auth.py:89-95 | normalising a normalised subject changes nothing |
| AuthUtils.BlankUidNormalizesToEmpty | backend/app/utils/auth.py:91-94 | a UID of only whitespace normalises to the empty text |
| AuthUtils.FirebaseWebApiKey | backend/app/utils/auth.py:129-143 | the precedence is: configured key, then environment key, then a legacy private key starting with "AIza"; there is no key iff none applies |
| AuthUtils.LegacyKeyShape | backend/app/utils/auth.py:140-141 | a key recovered from the legacy setting still starts with "AIza" and does not end in a quote |
| AuthUtils.SubjectFromFirebase | backend/app/utils/auth.py:184-206 | with the Admin SDK its verdict alone decides, subject to the e-mail-verified rule; otherwise the Google fallback's subject when it has a UID, else the Identity Toolkit's |
| AuthUtils.AdminPathIgnoresFallbacks | backend/app/utils/auth.py:186-200 | with the Admin SDK ready, neither fallback verifier affects the outcome |
| AuthUtils.ToolkitOnlyWithoutFallbackUid | backend/app/utils/auth.py:202-206 | the Identity Toolkit is consulted only when the Google fallback gave no UID |
| AuthUtils.FirebaseSubject | backend/app/utils/auth.py:209-214 | a subject is accepted iff it has a non-empty UID; otherwise 401 |
| AuthUtils.Linked | backend/app/utils/auth.py:227-231 | an e-mail match gets the UID only when auto-linking is on and it had none; nothing else changes |
| AuthUtils.GetCurrentUser | backend/app/utils/auth.py:217-239 | no UID gives 401. The UID match comes first, unchanged; then the address match, linked by the rule above; otherwise 404. Addresses and UIDs stay unique |
| AuthApi.AdminGuardAsWrittenNeverFires | backend/app/api/auth.py:20-21 | as written, the guard is never true, not even for the admin role |
| AuthApi.AdminGuardFiresExactlyForAdmin | backend/app/api/auth.py:20-21 | the corrected guard refuses exactly the admin role |
| AuthApi.Register | backend/app/api/auth.py:13-57 | the errors: admin role 403, token without e-mail 400, address mismatch 400. A UID holder is returned unchanged; otherwise, when some user's lower-cased address matches, the found user is linked, or the call is refused with 409 if it holds another UID: it succeeds when every matching user is linkable and is refused when none is; otherwise exactly one new user is created. Afterwards the UID is registered, and addresses and UIDs stay unique |
| FoodOrderPage.OrderTransitionsMatchBackend | frontend/src/pages/FoodOrderPage.jsx:10-16 | the page's transition table offers exactly the transitions the backend accepts |
| FoodOrderPage.Increment | frontend/src/pages/FoodOrderPage.jsx:129-135 | only the item's entries get one more unit |
| FoodOrderPage.AddToCart | frontend/src/pages/FoodOrderPage.jsx:118-139 | an item from another vendor than the cart's first is refused with the single-vendor message; a new item is appended with quantity 1 |
| FoodOrderPage.RemoveItem | frontend/src/pages/FoodOrderPage.jsx:143 | exactly the item's entries are dropped |
| FoodOrderPage.SetQuantity | frontend/src/pages/FoodOrderPage.jsx:146-150 | only the item's entries get the new quantity |
| FoodOrderPage.UpdateQuantity | frontend/src/pages/FoodOrderPage.jsx:141-151 | a quantity ≤ 0 removes the item; otherwise the cart keeps its length |
| FoodOrderPage.QuantityAfterRemove | frontend/src/pages/FoodOrderPage.jsx:143 | removing an item zeroes its quantity and keeps every other item's |
| FoodOrderPage.AddToCartQuantities | frontend/src/pages/FoodOrderPage.jsx:127-138 | adding an item raises its quantity by one and leaves every other item's |
| FoodOrderPage.UpdateQuantityQuantities | frontend/src/pages/FoodOrderPage.jsx:141-151 | changing a quantity sets only that item's quantity (zero when removed) |
| FoodOrderPage.AddToCartKeepsInvariant | frontend/src/pages/FoodOrderPage.jsx:118-139 | adding keeps one vendor, one entry per item and positive quantities |
| FoodOrderPage.UpdateQuantityKeepsInvariant | frontend/src/pages/FoodOrderPage.jsx:141-151 | changing a quantity keeps the same cart invariant |
| FoodOrderPage.RemoveKeepsInvariant | frontend/src/pages/FoodOrderPage.jsx:143 | removing an item keeps the cart invariant |
| FoodOrderPage.TotalAfterIncrement | frontend/src/pages/FoodOrderPage.jsx:153-157 | one more unit of an item raises the total by its unit price |
| FoodOrderPage.AddToCartTotal | frontend/src/pages/FoodOrderPage.jsx:153-157 | an accepted add raises the total by one unit price of the item |
| FoodOrderPage.CartLines | frontend/src/pages/FoodOrderPage.jsx:174-177 | the order lines are the cart's items and quantities, in order |
| FoodOrderPage.PlaceOrder | frontend/src/pages/FoodOrderPage.jsx:159-178 | an empty cart and then a missing slot are refused with their messages; otherwise the request names the cart's vendor, the slot and the cart's lines |
| FoodOrderPage.PlacedOrderPassesLineChecks | frontend/src/pages/FoodOrderPage.jsx:171-178 | a cart keeping its invariant never sends a non-positive or repeated line; with its items still on the menu, the backend accepts every line |
| FoodOrderPage.CartTotalMatchesOrderTotal | frontend/src/pages/FoodOrderPage.jsx:153-157 | at the menu's current prices, the page's total is the total the backend charges |
| ErrorMessages.EntryTexts | frontend/src/utils/errors.js:7 | each list entry shows its `msg` when truthy, else its own text |
| ErrorMessages.ApiErrorMessage | frontend/src/utils/errors.js:1-14 | the precedence is: a non-blank string detail, then a non-empty list detail joined with ", ", then a non-blank message, then the fallback |
| ErrorMessages.BlankDetailIgnored | frontend/src/utils/errors.js:3 | a whitespace-only detail behaves as no detail |
| ErrorMessages.ShownTextNonBlank | frontend/src/utils/errors.js:1-14 | the shown text is non-blank unless it comes from a list detail or the fallback is blank |
| ErrorMessages.ValidationErrorsJoined | frontend/src/utils/errors.js:6-7 | FastAPI validation errors show as their messages joined with ", " |
| ErrorMessages.NullEntryShowsEmpty | frontend/src/utils/errors.js:7 | a list detail `[null]` shows as the empty text, not the error's message |

## Left out

- SQLAlchemy sessions, commits and rollbacks are not modelled; every operation is atomic. ORM relationships become id lookups in the table maps.
- Listing and ordering queries outside the core are not modelled: remedial, order and menu listings, and the insights report.
- asyncio is reduced to sequential steps:
  - the stream lock, `create_task` and `wait_for` with its 5 s cancel;
  - the stop event's interleaving with the capture task.
  The awaited task's outcome is an input to `AiStream.StreamManager.StopStream`, and the loop's observed events are an input to `AiStream.StreamManager.RunStream`.
- The retry sleeps and the capture-object re-opening of the stream loop are not modelled.
- cv2 capture, JPEG encoding, face detection and embedding extraction are oracles whose outcomes are parameters. So are numpy's vector norm, the Firebase Admin SDK, the Google certificate check and the Identity Toolkit call.
- Floating point is not modelled: scores and prices are exact reals. The accuracy percentage (`round(..., 2)`), the weighted rush score and the demand estimates are not modelled.
- Random code generation is a nondeterministic choice. The redraw loops take the stream of draws and assume one draw is unused, which is what the source relies on to terminate.
- Notifications (printed e-mail/SMS), configuration loading, the HTTP routers other than `register`, and the front end other than the cart and the error-message helper are not modelled.
- FaceMatching.NormalizeEmbedding: takes the norm as a number whose square is the sum of squares, not a computed square root.
- AiService.ResolveProfileEmbeddings: a stored profile is normalised from its stored vector. JSON decoding failures of the stored text are treated like vectors that are not one-dimensional.
- AiService.CaptureAttendanceFromPhoto: does not compute the accuracy percentage, and the summary omits it.
- AiService.CaptureForSession: refuses faces whose dimension differs from a profile's with a placeholder ValueError message; the text numpy's dot product raises is not modelled.
- Common.Strip and Common.Lower: handle ASCII characters only. Python's `strip()` also removes non-ASCII white space and `lower()` also lower-cases non-ASCII letters, so the uniqueness checks on e-mail addresses, registration numbers and menu item names are modelled only for ASCII text.
- AiStream.StreamManager.StopStream: takes the awaited task's outcome as an input and does not model cancellation racing with the task.
- RemedialService.UpdateRemedialClass: models explicit nulls for the date, the times and the reason, but not for `section_id`, `classroom_id` or `is_active`, which the source would store as NULL; a payload such as `{"is_active": null}` is therefore outside the model.
- AttendanceService.MarkBulkAttendance: requires distinct student ids. The request schema (`BulkAttendanceMark`) guarantees this before the service is called. With repeats the service as written would add two rows for one new student.
- AttendanceService.ListSectionStudents: students with equal registration numbers may come in any order; only the ascending order of numbers is stated.
- AuthApi.Register: requires a non-empty UID, because `get_firebase_subject` guarantees one before `register` runs.
- AuthUtils.NormalizeSubject: takes string-valued claims only. A non-string claim, which `str()` would render, is not modelled.
- FoodService.LineError: the not-found message omits the item id that the source interpolates, because identifiers are opaque numbers here.
- FoodService.UpdateMenuItem: ignores a `vendor_id` key sent by a vendor actor, which the service would write raw. The update schema has no such field, so it cannot arrive through the router.
- FoodService.ApplyPatch: does not model an explicit null on the name or price (non-nullable columns, so the write would fail) nor on `is_available`, a nullable column where the source stores NULL, after which the item is never orderable.
- StudentService.UpdateStudent: does not model explicit nulls on three kinds of field. A null registration number passes the schema (`Optional[str]`) and then raises AttributeError at `.strip()`, before the e-mail and UID checks and before any write. Null names fail at the write, because those columns are non-nullable. A null `enrollment_year` is stored as NULL, because that column is nullable.
- StudentService.CreateStudent: treats an empty Firebase UID like an absent one, so `UidsUnique` ignores it. The `firebase_uid` column is unique, so the source stores at most one user with the empty UID; a second one fails at flush and the error is re-raised, while the model accepts it. StudentService.UpdateStudent behaves the same way.
- FoodSchema.ValidateMenuItemCreate, FoodSchema.ValidateMenuItemUpdate, FoodSchema.ValidateFoodOrderCreate and AiSchema.ParseStreamStartRequest: report only the first failing field, with a placeholder message. Pydantic reports every failing field, each with its own text; only which payloads are refused is modelled.
- ErrorMessages.ApiErrorMessage: JSON numbers are integers only, so fractional numbers in a list detail are not rendered.

## Findings

| source | as written | input that shows it | evidently intended | confidence | as-written member | corrected member |
|---|---|---|---|---|---|---|
| backend/app/api/auth.py:20 | `str(user_data.role) == "admin"` on a `(str, Enum)` role, whose `str()` is "UserRole.ADMIN" | a registration with role `admin` passes the guard and creates an admin user | refuse exactly the admin role, comparing the role's value | high (not executed) | AuthApi.AdminGuardAsWrittenNeverFires | AuthApi.AdminGuardFiresExactlyForAdmin |
| backend/app/services/student_service.py:149 | `str(update_payload["email"]).lower().strip()` also for an explicit null | an update with `"email": null` stores the address "none" on the login user | an explicit null leaves the address unchanged; only an address is normalised and stored | medium (not executed) | StudentService.NullEmailBecomesNone | StudentService.EmailChange |

For the first finding, `AuthApi.Register` uses the corrected guard. For the second, `StudentService.UpdateStudent` uses the corrected address change.
