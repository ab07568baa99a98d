/** The stateful side of the AI service: resolving a section's approved
    face profiles, photo-based attendance capture with its roster merge,
    biometric enrollment and its review, and the integer rules of the
    food-rush prediction. Face detection and embedding extraction are
    oracles whose outcome is a parameter; so are the clock and the numeric
    layer's vector norm. */
module AiService {
  import opened Common
  import opened AttendanceSchema
  import opened FaceMatching
  import opened Store
  import AiSchema

  /** The norm the numeric layer reports for a stored embedding (unused for
      a value that is not one-dimensional, which is refused first). */
  function StoredNorm(normOf: seq<real> -> real, raw: RawEmbedding): real {
    if raw.Vector? then normOf(raw.values) else 0.0
  }

  function NormalizedProfile(normOf: seq<real> -> real, p: FaceProfile): Result<seq<real>> {
    NormalizeEmbedding(p.embedding, StoredNorm(normOf, p.embedding))
  }

  /** Approved profiles of the section's active students, the ones that take
      part in a capture before normalisation is tried. */
  function ApprovedCandidates(enrollments: map<Id, Enrollment>, faceProfiles: map<Id, FaceProfile>, sectionId: Id): set<Id> {
    set s | s in ActiveStudentIds(enrollments, sectionId) && s in faceProfiles
      && faceProfiles[s].approvalStatus == "approved"
  }

  /** Those whose stored vector also normalises; a profile that fails is
      skipped, not reported. */
  function UsableProfileIds(enrollments: map<Id, Enrollment>, faceProfiles: map<Id, FaceProfile>, sectionId: Id,
                            normOf: seq<real> -> real): set<Id>
  {
    set s | s in ApprovedCandidates(enrollments, faceProfiles, sectionId)
      && NormalizedProfile(normOf, faceProfiles[s]).Ok?
  }

  /** The section's roster (`student_map`): active students that have a
      student row. */
  function Roster(enrollments: map<Id, Enrollment>, students: map<Id, Student>, sectionId: Id): set<Id> {
    set s | s in ActiveStudentIds(enrollments, sectionId) && s in students
  }

  predicate DistinctStudents(profiles: seq<Profile>) {
    forall i, j :: 0 <= i < j < |profiles| ==> profiles[i].studentId != profiles[j].studentId
  }

  /** `profiles` lists every usable profile once, with its normalised
      embedding, in some order (the database's row order). */
  predicate ResolvedFrom(profiles: seq<Profile>, enrollments: map<Id, Enrollment>, faceProfiles: map<Id, FaceProfile>,
                         sectionId: Id, normOf: seq<real> -> real)
  {
    && DistinctStudents(profiles)
    && ProfileIds(profiles) == UsableProfileIds(enrollments, faceProfiles, sectionId, normOf)
    && forall i :: 0 <= i < |profiles| ==>
         profiles[i].studentId in faceProfiles
         && NormalizedProfile(normOf, faceProfiles[profiles[i].studentId]) == Ok(profiles[i].embedding)
  }

  lemma {:induction false} ProfileIdsAppend(profiles: seq<Profile>, p: Profile)
    ensures ProfileIds(profiles + [p]) == ProfileIds(profiles) + {p.studentId}
  {
    var extended := profiles + [p];
    forall q | q in extended ensures q in profiles || q == p {
      var i :| 0 <= i < |extended| && extended[i] == q;
      if i < |profiles| {
        assert profiles[i] == q;
      }
    }
  }

  /** The loop invariant of the resolution: `profiles` holds exactly the
      usable profiles among the `visited` candidates. */
  predicate ResolvedAmong(profiles: seq<Profile>, enrollments: map<Id, Enrollment>, faceProfiles: map<Id, FaceProfile>,
                          sectionId: Id, normOf: seq<real> -> real, visited: set<Id>)
  {
    && DistinctStudents(profiles)
    && ProfileIds(profiles) == UsableProfileIds(enrollments, faceProfiles, sectionId, normOf) * visited
    && forall i :: 0 <= i < |profiles| ==>
         profiles[i].studentId in faceProfiles
         && NormalizedProfile(normOf, faceProfiles[profiles[i].studentId]) == Ok(profiles[i].embedding)
  }

  lemma {:induction false} ResolveStep(profiles: seq<Profile>, enrollments: map<Id, Enrollment>, faceProfiles: map<Id, FaceProfile>,
                                       sectionId: Id, normOf: seq<real> -> real, visited: set<Id>, s: Id)
    requires ResolvedAmong(profiles, enrollments, faceProfiles, sectionId, normOf, visited)
    requires s in ApprovedCandidates(enrollments, faceProfiles, sectionId) && s !in visited
    ensures var n := NormalizedProfile(normOf, faceProfiles[s]);
      ResolvedAmong(if n.Ok? then profiles + [Profile(s, n.value)] else profiles,
                    enrollments, faceProfiles, sectionId, normOf, visited + {s})
  {
    var usable := UsableProfileIds(enrollments, faceProfiles, sectionId, normOf);
    var n := NormalizedProfile(normOf, faceProfiles[s]);
    if n.Ok? {
      assert s in usable;
      assert s !in ProfileIds(profiles);
      forall i | 0 <= i < |profiles| ensures profiles[i].studentId != s {
        assert profiles[i] in profiles;
      }
      ProfileIdsAppend(profiles, Profile(s, n.value));
      assert usable * (visited + {s}) == usable * visited + {s};
    } else {
      assert s !in usable;
      assert usable * (visited + {s}) == usable * visited;
    }
  }

  /** Moving one element from the unvisited to the visited part keeps the
      two a partition of the same set. */
  lemma {:induction false} VisitOne(remaining: set<Id>, visited: set<Id>, whole: set<Id>, s: Id)
    requires remaining + visited == whole && remaining !! visited && s in remaining
    ensures (remaining - {s}) + (visited + {s}) == whole && (remaining - {s}) !! (visited + {s})
    ensures |remaining - {s}| < |remaining|
  {
    assert remaining == (remaining - {s}) + {s};
  }

  /** `_resolve_profile_embeddings_for_section`: visits the approved
      profiles in an unspecified order and keeps those that normalise. */
  method ResolveProfileEmbeddings(enrollments: map<Id, Enrollment>, faceProfiles: map<Id, FaceProfile>,
                                  students: map<Id, Student>, sectionId: Id, normOf: seq<real> -> real)
    returns (profiles: seq<Profile>, roster: set<Id>)
    ensures roster == Roster(enrollments, students, sectionId)
    ensures ResolvedFrom(profiles, enrollments, faceProfiles, sectionId, normOf)
  {
    roster := Roster(enrollments, students, sectionId);
    var candidates := ApprovedCandidates(enrollments, faceProfiles, sectionId);
    profiles := [];
    var remaining := candidates;
    ghost var visited: set<Id> := {};
    while remaining != {}
      invariant remaining + visited == candidates && remaining !! visited
      invariant ResolvedAmong(profiles, enrollments, faceProfiles, sectionId, normOf, visited)
      decreases |remaining|
    {
      var s :| s in remaining;
      VisitOne(remaining, visited, candidates, s);
      ResolveStep(profiles, enrollments, faceProfiles, sectionId, normOf, visited, s);
      var normalized := NormalizedProfile(normOf, faceProfiles[s]);
      if normalized.Ok? {
        profiles := profiles + [Profile(s, normalized.value)];
      }
      remaining := remaining - {s};
      visited := visited + {s};
    }
    assert UsableProfileIds(enrollments, faceProfiles, sectionId, normOf) * candidates
      == UsableProfileIds(enrollments, faceProfiles, sectionId, normOf);
  }

  /** What `capture_attendance_from_photo` returns (the accuracy percentage
      is left out). */
  datatype CaptureSummary = CaptureSummary(
    totalFacesDetected: nat,
    matchedStudents: nat,
    lateDetections: nat,
    proxyAlerts: nat,
    presentCount: nat,
    absentCount: nat,
    matchedRegistrationNumbers: seq<string>)

  /** The row the capture writes for a roster student: present with its
      score when matched, absent without a score otherwise. */
  function CaptureRow(sessionId: Id, studentId: Id, best: map<Id, real>, now: int, facultyId: Id): (r: AttendanceRecord)
    ensures r.status == Present <==> studentId in best
    ensures r.confidence.None? <==> r.status == Absent
  {
    AttendanceRecord(sessionId, studentId, if studentId in best then Present else Absent, now, AiFaceMark(facultyId),
                     if studentId in best then Some(best[studentId]) else None)
  }

  /** `late_detections`: every matched student counts as late once the
      capture instant is strictly after the session start plus the late
      threshold. */
  function LateDetections(matched: nat, captureAt: int, sessionStart: int, lateThresholdMinutes: int): (n: nat)
    ensures n == 0 || n == matched
    ensures captureAt <= sessionStart + lateThresholdMinutes * 60 ==> n == 0
  {
    if captureAt > sessionStart + lateThresholdMinutes * 60 then matched else 0
  }

  /** Every student of `students` has exactly the capture row in the
      session, and nothing else was touched. */
  ghost predicate CaptureRowsWritten(before: map<Id, AttendanceRecord>, after: map<Id, AttendanceRecord>, sessionId: Id,
                                     students: set<Id>, best: map<Id, real>, now: int, facultyId: Id)
  {
    && OneRecordPerStudent(after)
    && (forall s :: s in students ==> (HasRecord(after, sessionId, s)
                                       && RecordOf(after, sessionId, s) == CaptureRow(sessionId, s, best, now, facultyId)))
    && ChangedOnly(before, after, sessionId, students)
  }

  /** The rows of the first `n` listed students are their capture rows. */
  ghost predicate RowsWrittenUpTo(records: map<Id, AttendanceRecord>, sessionId: Id, enrolled: seq<Id>, n: nat,
                                  best: map<Id, real>, now: int, facultyId: Id)
    requires n <= |enrolled|
  {
    forall j :: 0 <= j < n ==> (HasRecord(records, sessionId, enrolled[j])
                                && RecordOf(records, sessionId, enrolled[j]) == CaptureRow(sessionId, enrolled[j], best, now, facultyId))
  }

  /** The merge loop's state over the records: the first `n` listed
      students have their capture rows, and only roster rows changed. */
  ghost predicate MergedUpTo(origin: map<Id, AttendanceRecord>, records: map<Id, AttendanceRecord>, sessionId: Id,
                             enrolled: seq<Id>, n: nat, roster: set<Id>, best: map<Id, real>, now: int, facultyId: Id)
  {
    && n <= |enrolled|
    && OneRecordPerStudent(records)
    && RowsWrittenUpTo(records, sessionId, enrolled, n, best, now, facultyId)
    && ChangedOnly(origin, records, sessionId, roster)
  }

  lemma {:induction false} RowsWrittenStep(b: map<Id, AttendanceRecord>, c: map<Id, AttendanceRecord>, sessionId: Id,
                                           enrolled: seq<Id>, n: nat, best: map<Id, real>, now: int, facultyId: Id)
    requires n < |enrolled|
    requires OneRecordPerStudent(b) && OneRecordPerStudent(c)
    requires RowsWrittenUpTo(b, sessionId, enrolled, n, best, now, facultyId)
    requires ChangedOnly(b, c, sessionId, {enrolled[n]})
    requires HasRecord(c, sessionId, enrolled[n])
    requires RecordOf(c, sessionId, enrolled[n]) == CaptureRow(sessionId, enrolled[n], best, now, facultyId)
    ensures RowsWrittenUpTo(c, sessionId, enrolled, n + 1, best, now, facultyId)
  {
    forall j | 0 <= j < n ensures HasRecord(c, sessionId, enrolled[j])
      && RecordOf(c, sessionId, enrolled[j]) == CaptureRow(sessionId, enrolled[j], best, now, facultyId)
    {
      if enrolled[j] != enrolled[n] {
        RecordOfStable(b, c, sessionId, {enrolled[n]}, enrolled[j]);
      }
    }
  }

  /** One step of the roster merge: the listed student's capture row is
      written over its existing row or added. */
  method WriteCaptureRow(db: Database, ghost origin: map<Id, AttendanceRecord>, sessionId: Id, enrolled: seq<Id>, i: nat,
                         ghost roster: set<Id>, best: map<Id, real>, now: int, facultyId: Id)
    modifies db`records
    requires i < |enrolled| && enrolled[i] in roster
    requires MergedUpTo(origin, db.records, sessionId, enrolled, i, roster, best, now, facultyId)
    ensures MergedUpTo(origin, db.records, sessionId, enrolled, i + 1, roster, best, now, facultyId)
  {
    var s := enrolled[i];
    var row := CaptureRow(sessionId, s, best, now, facultyId);
    ghost var before := db.records;
    UpsertRecord(db, sessionId, s, row.status, now, AiFaceMark(facultyId), WriteConfidence(row.confidence));
    RowsWrittenStep(before, db.records, sessionId, enrolled, i, best, now, facultyId);
    ChangedOnlyWithin(origin, before, db.records, sessionId, roster, s);
  }

  /** The matched students among `xs`, in their order. */
  function PresentIn(xs: seq<Id>, best: map<Id, real>): (r: seq<Id>)
    ensures |r| <= |xs|
    ensures forall x :: x in r ==> x in xs && x in best
  {
    if xs == [] then []
    else PresentIn(xs[..|xs| - 1], best) + (if xs[|xs| - 1] in best then [xs[|xs| - 1]] else [])
  }

  /** The listed matched students are exactly the list's matched members. */
  lemma {:induction false} PresentInMembers(xs: seq<Id>, best: map<Id, real>)
    ensures forall x :: x in PresentIn(xs, best) <==> x in xs && x in best
  {
    if xs != [] {
      var init, last := xs[..|xs| - 1], xs[|xs| - 1];
      assert xs == init + [last];
      PresentInMembers(init, best);
    }
  }

  /** Listing the matched students of a repeat-free list lists each once. */
  lemma {:induction false} PresentInDistinct(xs: seq<Id>, best: map<Id, real>)
    requires Distinct(xs)
    ensures Distinct(PresentIn(xs, best))
  {
    if xs != [] {
      var init, last := xs[..|xs| - 1], xs[|xs| - 1];
      assert Distinct(init) by {
        forall i, j | 0 <= i < j < |init| ensures init[i] != init[j] {
          assert init[i] == xs[i] && init[j] == xs[j];
        }
      }
      PresentInDistinct(init, best);
      var q := PresentIn(init, best);
      if last in best {
        var p := q + [last];
        assert last !in init by {
          forall i | 0 <= i < |init| ensures init[i] != last {
            assert init[i] == xs[i];
          }
        }
        forall i, j | 0 <= i < j < |p| ensures p[i] != p[j] {
          if j == |q| {
            assert p[i] == q[i] && q[i] in q;
          } else {
            assert p[i] == q[i] && p[j] == q[j];
          }
        }
      }
    }
  }

  /** The present students listed from a repeat-free list are, as a set,
      the list's members that were matched, and there are as many of them. */
  lemma {:induction false} PresentInIsMatchedRoster(xs: seq<Id>, best: map<Id, real>)
    requires Distinct(xs)
    ensures Distinct(PresentIn(xs, best))
    ensures Members(PresentIn(xs, best)) == Members(xs) * best.Keys
    ensures |PresentIn(xs, best)| == |Members(xs) * best.Keys|
  {
    var p := PresentIn(xs, best);
    PresentInMembers(xs, best);
    PresentInDistinct(xs, best);
    DistinctIffSetSize(p);
    var sp, sx := Members(p), Members(xs);
    forall x ensures x in sp <==> x in sx * best.Keys {
      assert x in sp <==> x in p;
      assert x in sx <==> x in xs;
    }
    assert sp == sx * best.Keys;
    assert |sp| == |p|;
  }

  /** The counts of the merge over a listed roster are the roster's. */
  lemma {:induction false} MergeCountsOfRoster(enrolled: seq<Id>, roster: set<Id>, best: map<Id, real>)
    requires Distinct(enrolled) && Members(enrolled) == roster
    ensures |PresentIn(enrolled, best)| == |roster * best.Keys| && |enrolled| == |roster|
    ensures Distinct(PresentIn(enrolled, best)) && Members(PresentIn(enrolled, best)) == roster * best.Keys
  {
    PresentInIsMatchedRoster(enrolled, best);
    DistinctIffSetSize(enrolled);
  }

  /** After the whole list is merged, the roster it lists has its capture
      rows. */
  lemma {:induction false} RowsWrittenForRoster(before: map<Id, AttendanceRecord>, after: map<Id, AttendanceRecord>,
                                                sessionId: Id, enrolled: seq<Id>, roster: set<Id>,
                                                best: map<Id, real>, now: int, facultyId: Id)
    requires Members(enrolled) == roster
    requires MergedUpTo(before, after, sessionId, enrolled, |enrolled|, roster, best, now, facultyId)
    ensures CaptureRowsWritten(before, after, sessionId, roster, best, now, facultyId)
  {
    forall s | s in roster ensures HasRecord(after, sessionId, s)
      && RecordOf(after, sessionId, s) == CaptureRow(sessionId, s, best, now, facultyId)
    {
      assert s in Members(enrolled);
      var j :| 0 <= j < |enrolled| && enrolled[j] == s;
    }
  }

  /** The students a list names. */
  function Members(xs: seq<Id>): set<Id> {
    set x: Id | x in xs
  }

  /** Appending a student the list does not name keeps it repeat-free and
      adds that student to its members. */
  lemma {:induction false} AppendNewMember(xs: seq<Id>, s: Id)
    requires Distinct(xs) && s !in Members(xs)
    ensures Distinct(xs + [s]) && Members(xs + [s]) == Members(xs) + {s}
  {
    var ys := xs + [s];
    forall i, j | 0 <= i < j < |ys| ensures ys[i] != ys[j] {
      if j == |xs| {
        assert ys[i] == xs[i] && xs[i] in Members(xs);
      } else {
        assert ys[i] == xs[i] && ys[j] == xs[j];
      }
    }
    forall x ensures x in Members(ys) <==> x in Members(xs) || x == s {
      if x in Members(ys) {
        var i :| 0 <= i < |ys| && ys[i] == x;
        if i < |xs| {
          assert xs[i] == x;
        }
      }
      if x in Members(xs) {
        var i :| 0 <= i < |xs| && xs[i] == x;
        assert ys[i] == x;
      }
      if x == s {
        assert ys[|xs|] == s;
      }
    }
  }

  /** `list(student_map.keys())`: the roster, each member once. */
  method ListRoster(roster: set<Id>) returns (enrolled: seq<Id>)
    ensures Distinct(enrolled) && Members(enrolled) == roster
    ensures forall i :: 0 <= i < |enrolled| ==> enrolled[i] in roster
  {
    enrolled := [];
    var rest := roster;
    while rest != {}
      invariant Distinct(enrolled)
      invariant Members(enrolled) + rest == roster && Members(enrolled) !! rest
      decreases |rest|
    {
      var s :| s in rest;
      AppendNewMember(enrolled, s);
      enrolled := enrolled + [s];
      rest := rest - {s};
    }
    forall i | 0 <= i < |enrolled| ensures enrolled[i] in roster {
      assert enrolled[i] in Members(enrolled);
    }
  }

  /** `registrationNumbers` lists, once each, the registration numbers of
      the students `present`, in the order of `ids`. */
  ghost predicate ListsPresent(registrationNumbers: seq<string>, ids: seq<Id>, students: map<Id, Student>, present: set<Id>) {
    && |registrationNumbers| == |ids|
    && Distinct(ids)
    && Members(ids) == present
    && present <= students.Keys
    && forall i :: 0 <= i < |ids| ==> registrationNumbers[i] == students[ids[i]].registrationNumber
  }

  /** The merge loop's tally after the first `n` listed students: the
      present ones in order with their registration numbers, and the
      present and absent counts. */
  ghost predicate TalliedUpTo(enrolled: seq<Id>, n: nat, best: map<Id, real>, students: map<Id, Student>,
                              presentIds: seq<Id>, registrationNumbers: seq<string>, presentCount: nat, absentCount: nat)
  {
    && n <= |enrolled|
    && presentIds == PresentIn(enrolled[..n], best)
    && presentCount == |presentIds| && presentCount + absentCount == n
    && |registrationNumbers| == |presentIds|
    && forall j :: 0 <= j < |presentIds| ==>
         presentIds[j] in students && registrationNumbers[j] == students[presentIds[j]].registrationNumber
  }

  lemma {:induction false} TallyStep(enrolled: seq<Id>, n: nat, best: map<Id, real>, students: map<Id, Student>,
                                     presentIds: seq<Id>, registrationNumbers: seq<string>, presentCount: nat, absentCount: nat)
    requires TalliedUpTo(enrolled, n, best, students, presentIds, registrationNumbers, presentCount, absentCount)
    requires n < |enrolled| && enrolled[n] in students
    ensures enrolled[n] in best ==>
      TalliedUpTo(enrolled, n + 1, best, students, presentIds + [enrolled[n]],
                  registrationNumbers + [students[enrolled[n]].registrationNumber], presentCount + 1, absentCount)
    ensures enrolled[n] !in best ==>
      TalliedUpTo(enrolled, n + 1, best, students, presentIds, registrationNumbers, presentCount, absentCount + 1)
  {
    assert enrolled[..n + 1][..n] == enrolled[..n];
  }

  /** The roster merge of `capture_attendance_from_photo`, walking the
      listed roster: every listed student gets its capture row (existing
      rows are overwritten) and only roster rows change; the present
      students are tallied in order with their registration numbers, and
      the present and absent counts. */
  method MergeRoster(db: Database, sessionId: Id, enrolled: seq<Id>, ghost roster: set<Id>,
                     best: map<Id, real>, now: int, facultyId: Id)
    returns (presentCount: nat, absentCount: nat, registrationNumbers: seq<string>, ghost presentIds: seq<Id>)
    modifies db`records
    requires OneRecordPerStudent(db.records)
    requires forall i :: 0 <= i < |enrolled| ==> enrolled[i] in roster
    requires roster <= db.students.Keys
    ensures MergedUpTo(old(db.records), db.records, sessionId, enrolled, |enrolled|, roster, best, now, facultyId)
    ensures TalliedUpTo(enrolled, |enrolled|, best, db.students, presentIds, registrationNumbers, presentCount, absentCount)
  {
    presentIds := [];
    var students := db.students;
    presentCount := 0;
    absentCount := 0;
    registrationNumbers := [];
    var i := 0;
    while i < |enrolled|
      invariant MergedUpTo(old(db.records), db.records, sessionId, enrolled, i, roster, best, now, facultyId)
      invariant TalliedUpTo(enrolled, i, best, students, presentIds, registrationNumbers, presentCount, absentCount)
    {
      var s := enrolled[i];
      WriteCaptureRow(db, old(db.records), sessionId, enrolled, i, roster, best, now, facultyId);
      TallyStep(enrolled, i, best, students, presentIds, registrationNumbers, presentCount, absentCount);
      if s in best {
        presentCount := presentCount + 1;
        registrationNumbers := registrationNumbers + [students[s].registrationNumber];
        presentIds := presentIds + [s];
      } else {
        absentCount := absentCount + 1;
      }
      i := i + 1;
    }
  }

  /** What the matching and merge of a capture promise for a roster: the
      faces were matched against the profiles, the summary reports the
      match, every roster student has its capture row, and the session is
      closed as an `ai_face` session with the counts. */
  ghost predicate CaptureMerged(summary: CaptureSummary, students: map<Id, Student>, recordsBefore: map<Id, AttendanceRecord>,
                                recordsAfter: map<Id, AttendanceRecord>, sessionAfter: AttendanceSession,
                                session: AttendanceSession, sessionId: Id, facultyId: Id, faces: seq<seq<real>>,
                                profiles: seq<Profile>, roster: set<Id>, threshold: real, lateThresholdMinutes: int,
                                now: int, matches: MatchState, presentIds: seq<Id>)
  {
    match summary
    case CaptureSummary(totalFaces, matched, late, proxyAlerts, presentCount, absentCount, registrationNumbers) =>
      && Conformable(faces, profiles)
      && matches == MatchAll(faces, profiles, threshold)
      && totalFaces == |faces|
      && matched == |matches.best|
      && proxyAlerts == matches.proxyAlerts
      && late == LateDetections(|matches.best|, now, session.startTime, lateThresholdMinutes)
      && presentCount == |roster * matches.best.Keys|
      && presentCount + absentCount == |roster|
      && ListsPresent(registrationNumbers, presentIds, students, roster * matches.best.Keys)
      && CaptureRowsWritten(recordsBefore, recordsAfter, sessionId, roster, matches.best, now, facultyId)
      && sessionAfter == session.(sessionType := "ai_face", presentCount := presentCount, absentCount := absentCount,
                                  totalStudents := |roster|, isClosed := true, endTime := Some(now))
  }

  /** What a successful capture promises: the roster and the usable
      profiles are non-empty, the profiles are the resolved ones, and the
      matching and merge went as `CaptureMerged` says for the section's
      roster. */
  ghost predicate CapturedAs(summary: CaptureSummary, enrollments: map<Id, Enrollment>, faceProfiles: map<Id, FaceProfile>,
                             students: map<Id, Student>, recordsBefore: map<Id, AttendanceRecord>,
                             recordsAfter: map<Id, AttendanceRecord>, sessionAfter: AttendanceSession,
                             session: AttendanceSession, sessionId: Id, facultyId: Id, faces: seq<seq<real>>,
                             threshold: real, lateThresholdMinutes: int, now: int, normOf: seq<real> -> real,
                             profiles: seq<Profile>, matches: MatchState, presentIds: seq<Id>)
  {
    var roster := Roster(enrollments, students, session.sectionId);
    && roster != {}
    && UsableProfileIds(enrollments, faceProfiles, session.sectionId, normOf) != {}
    && ResolvedFrom(profiles, enrollments, faceProfiles, session.sectionId, normOf)
    && CaptureMerged(summary, students, recordsBefore, recordsAfter, sessionAfter, session, sessionId, facultyId, faces,
                     profiles, roster, threshold, lateThresholdMinutes, now, matches, presentIds)
  }

  lemma {:induction false} CapturedAsIntro(summary: CaptureSummary, enrollments: map<Id, Enrollment>, faceProfiles: map<Id, FaceProfile>,
                             students: map<Id, Student>, recordsBefore: map<Id, AttendanceRecord>,
                             recordsAfter: map<Id, AttendanceRecord>, sessionAfter: AttendanceSession,
                             session: AttendanceSession, sessionId: Id, facultyId: Id, faces: seq<seq<real>>,
                             threshold: real, lateThresholdMinutes: int, now: int, normOf: seq<real> -> real,
                             profiles: seq<Profile>, matches: MatchState, presentIds: seq<Id>, roster: set<Id>)
    requires roster == Roster(enrollments, students, session.sectionId) && roster != {} && profiles != []
    requires ResolvedFrom(profiles, enrollments, faceProfiles, session.sectionId, normOf)
    requires CaptureMerged(summary, students, recordsBefore, recordsAfter, sessionAfter, session, sessionId, facultyId, faces,
                     profiles, roster, threshold, lateThresholdMinutes, now, matches, presentIds)
    ensures CapturedAs(summary, enrollments, faceProfiles, students, recordsBefore, recordsAfter, sessionAfter, session, sessionId, facultyId, faces, threshold, lateThresholdMinutes, now, normOf, profiles, matches, presentIds)
  {
    assert profiles[0].studentId in ProfileIds(profiles) by {
      assert profiles[0] in profiles;
    }
  }

  /** Once the whole repeat-free list of the roster is merged and the
      session closed with the tally, the capture is as `CaptureMerged`
      says: every roster student has its capture row, the counts are the
      roster's, and the present students' registration numbers are listed
      once each. */
  lemma {:induction false} MergeCoversRoster(summary: CaptureSummary, students: map<Id, Student>,
                                             recordsBefore: map<Id, AttendanceRecord>, recordsAfter: map<Id, AttendanceRecord>,
                                             sessionAfter: AttendanceSession, session: AttendanceSession, sessionId: Id,
                                             facultyId: Id, faces: seq<seq<real>>, profiles: seq<Profile>, enrolled: seq<Id>,
                                             roster: set<Id>, threshold: real, lateThresholdMinutes: int, now: int,
                                             matches: MatchState, presentIds: seq<Id>)
    requires Conformable(faces, profiles) && matches == MatchAll(faces, profiles, threshold)
    requires Distinct(enrolled) && Members(enrolled) == roster && roster <= students.Keys
    requires MergedUpTo(recordsBefore, recordsAfter, sessionId, enrolled, |enrolled|, roster, matches.best, now, facultyId)
    requires TalliedUpTo(enrolled, |enrolled|, matches.best, students, presentIds, summary.matchedRegistrationNumbers,
                         summary.presentCount, summary.absentCount)
    requires summary.totalFacesDetected == |faces| && summary.matchedStudents == |matches.best|
    requires summary.proxyAlerts == matches.proxyAlerts
    requires summary.lateDetections == LateDetections(|matches.best|, now, session.startTime, lateThresholdMinutes)
    requires sessionAfter == session.(sessionType := "ai_face", presentCount := summary.presentCount,
                                      absentCount := summary.absentCount, totalStudents := |enrolled|,
                                      isClosed := true, endTime := Some(now))
    ensures CaptureMerged(summary, students, recordsBefore, recordsAfter, sessionAfter, session, sessionId, facultyId,
                          faces, profiles, roster, threshold, lateThresholdMinutes, now, matches, presentIds)
  {
    RowsWrittenForRoster(recordsBefore, recordsAfter, sessionId, enrolled, roster, matches.best, now, facultyId);
    assert enrolled[..|enrolled|] == enrolled;
    MergeCountsOfRoster(enrolled, roster, matches.best);
  }

  /** The part of `capture_attendance_from_photo` after the checks: match
      the faces, merge the listed roster and close the session. */
  method CaptureMatched(db: Database, sessionId: Id, facultyId: Id, session: AttendanceSession, faces: seq<seq<real>>,
                        profiles: seq<Profile>, roster: set<Id>, threshold: real, lateThresholdMinutes: int, now: int)
    returns (summary: CaptureSummary, ghost matches: MatchState, ghost presentIds: seq<Id>)
    modifies db`records, db`sessions
    requires OneRecordPerStudent(db.records)
    requires Conformable(faces, profiles) && roster <= db.students.Keys
    ensures OneRecordPerStudent(db.records)
    ensures sessionId in db.sessions && db.sessions == old(db.sessions)[sessionId := db.sessions[sessionId]]
    ensures CaptureMerged(summary, db.students, old(db.records), db.records, db.sessions[sessionId], session, sessionId,
                          facultyId, faces, profiles, roster, threshold, lateThresholdMinutes, now, matches, presentIds)
  {
    var best, proxyAlerts := MatchDetectedFaces(faces, profiles, threshold);
    matches := MatchState(best, proxyAlerts);
    var late := LateDetections(|best|, now, session.startTime, lateThresholdMinutes);
    var enrolled := ListRoster(roster);
    var presentCount, absentCount, registrationNumbers, ids := MergeRoster(db, sessionId, enrolled, roster, best, now, facultyId);
    presentIds := ids;
    var closed := session.(sessionType := "ai_face", presentCount := presentCount, absentCount := absentCount,
                           totalStudents := |enrolled|, isClosed := true, endTime := Some(now));
    db.sessions := db.sessions[sessionId := closed];
    summary := CaptureSummary(|faces|, |best|, late, proxyAlerts, presentCount, absentCount, registrationNumbers);
    MergeCoversRoster(summary, db.students, old(db.records), db.records, closed, session, sessionId, facultyId, faces,
                      profiles, enrolled, roster, threshold, lateThresholdMinutes, now, matches, presentIds);
  }

  /** `capture_attendance_from_photo` once the session is known to be an
      open session of this faculty member: the detection, roster, profile
      and shape checks, then the matching and merge. */
  method CaptureForSession(db: Database, sessionId: Id, facultyId: Id, session: AttendanceSession,
                           detection: Result<seq<seq<real>>>, threshold: real, lateThresholdMinutes: int, now: int,
                           normOf: seq<real> -> real)
    returns (r: Result<CaptureSummary>, ghost profiles: seq<Profile>, ghost matches: MatchState, ghost presentIds: seq<Id>)
    modifies db`records, db`sessions
    requires OneRecordPerStudent(db.records)
    ensures OneRecordPerStudent(db.records)
    ensures detection.Err? ==> r == Err(detection.error)
    ensures detection.Ok? ==> ResolvedFrom(profiles, db.enrollments, db.faceProfiles, session.sectionId, normOf)
    ensures detection.Ok? && Roster(db.enrollments, db.students, session.sectionId) == {} ==>
      r == Err(ValueError("No active students enrolled in this section"))
    ensures detection.Ok? && Roster(db.enrollments, db.students, session.sectionId) != {}
            && UsableProfileIds(db.enrollments, db.faceProfiles, session.sectionId, normOf) == {} ==>
      r == Err(ValueError("No approved face profiles found for enrolled students"))
    ensures r.Ok? <==> (detection.Ok? && Roster(db.enrollments, db.students, session.sectionId) != {}
                        && UsableProfileIds(db.enrollments, db.faceProfiles, session.sectionId, normOf) != {}
                        && Conformable(detection.value, profiles))
    ensures r.Err? ==> db.records == old(db.records) && db.sessions == old(db.sessions)
    ensures r.Ok? ==> sessionId in db.sessions && db.sessions == old(db.sessions)[sessionId := db.sessions[sessionId]]
    ensures r.Ok? ==> CapturedAs(r.value, db.enrollments, db.faceProfiles, db.students, old(db.records), db.records,
                                 db.sessions[sessionId], session, sessionId, facultyId,
                                 detection.value, threshold, lateThresholdMinutes, now, normOf, profiles, matches, presentIds)
  {
    profiles := [];
    matches := MatchState(map[], 0);
    presentIds := [];
    if detection.Err? {
      return Err(detection.error), profiles, matches, presentIds;
    }
    var faces := detection.value;
    var resolved, roster := ResolveProfileEmbeddings(db.enrollments, db.faceProfiles, db.students, session.sectionId, normOf);
    profiles := resolved;
    if roster == {} {
      return Err(ValueError("No active students enrolled in this section")), profiles, matches, presentIds;
    }
    if resolved == [] {
      return Err(ValueError("No approved face profiles found for enrolled students")), profiles, matches, presentIds;
    }
    assert resolved[0].studentId in ProfileIds(resolved) by {
      assert resolved[0] in resolved;
    }
    if !Conformable(faces, resolved) {
      return Err(ValueError("shapes not aligned: embedding dimensions differ")), profiles, matches, presentIds;
    }
    var summary;
    summary, matches, presentIds := CaptureMatched(db, sessionId, facultyId, session, faces, resolved, roster, threshold,
                                                   lateThresholdMinutes, now);
    CapturedAsIntro(summary, db.enrollments, db.faceProfiles, db.students, old(db.records), db.records,
                    db.sessions[sessionId], session, sessionId, facultyId, faces, threshold, lateThresholdMinutes, now, normOf,
                    profiles, matches, presentIds, roster);
    r := Ok(summary);
  }

  /** The session exists, was opened by this faculty member and is still
      open: the three checks before any detection work. */
  predicate OpenOwnSession(sessions: map<Id, AttendanceSession>, sessionId: Id, facultyId: Id) {
    sessionId in sessions && sessions[sessionId].markedBy == facultyId && !sessions[sessionId].isClosed
  }

  /** `capture_attendance_from_photo`. `detection` is the outcome of
      detecting and embedding the faces of the photo; `now` is the capture
      instant (`captured_at or utcnow()`). */
  method CaptureAttendanceFromPhoto(db: Database, sessionId: Id, facultyId: Id, detection: Result<seq<seq<real>>>,
                                    threshold: real, lateThresholdMinutes: int, now: int, normOf: seq<real> -> real)
    returns (r: Result<CaptureSummary>, ghost profiles: seq<Profile>, ghost matches: MatchState, ghost presentIds: seq<Id>)
    modifies db`records, db`sessions
    requires OneRecordPerStudent(db.records)
    ensures OneRecordPerStudent(db.records)
    ensures sessionId !in old(db.sessions) ==> r == Err(LookupError("Attendance session not found"))
    ensures sessionId in old(db.sessions) && old(db.sessions[sessionId]).markedBy != facultyId ==>
      r == Err(PermissionError("Faculty can run AI capture only for own sessions"))
    ensures (sessionId in old(db.sessions) && old(db.sessions[sessionId]).markedBy == facultyId
             && old(db.sessions[sessionId]).isClosed) ==> r == Err(ValueError("Attendance session is already closed"))
    ensures OpenOwnSession(old(db.sessions), sessionId, facultyId) && detection.Err? ==> r == Err(detection.error)
    ensures OpenOwnSession(old(db.sessions), sessionId, facultyId) && detection.Ok? ==>
      ResolvedFrom(profiles, db.enrollments, db.faceProfiles, old(db.sessions[sessionId]).sectionId, normOf)
    ensures OpenOwnSession(old(db.sessions), sessionId, facultyId) && detection.Ok?
            && Roster(db.enrollments, db.students, old(db.sessions[sessionId]).sectionId) == {} ==>
      r == Err(ValueError("No active students enrolled in this section"))
    ensures OpenOwnSession(old(db.sessions), sessionId, facultyId) && detection.Ok?
            && Roster(db.enrollments, db.students, old(db.sessions[sessionId]).sectionId) != {}
            && UsableProfileIds(db.enrollments, db.faceProfiles, old(db.sessions[sessionId]).sectionId, normOf) == {} ==>
      r == Err(ValueError("No approved face profiles found for enrolled students"))
    ensures r.Ok? <==> (OpenOwnSession(old(db.sessions), sessionId, facultyId) && detection.Ok?
                        && Roster(db.enrollments, db.students, old(db.sessions[sessionId]).sectionId) != {}
                        && UsableProfileIds(db.enrollments, db.faceProfiles, old(db.sessions[sessionId]).sectionId, normOf) != {}
                        && Conformable(detection.value, profiles))
    ensures r.Err? ==> db.records == old(db.records) && db.sessions == old(db.sessions)
    ensures r.Ok? ==> sessionId in db.sessions && db.sessions == old(db.sessions)[sessionId := db.sessions[sessionId]]
    ensures r.Ok? ==> CapturedAs(r.value, db.enrollments, db.faceProfiles, db.students, old(db.records), db.records,
                                 db.sessions[sessionId], old(db.sessions[sessionId]), sessionId, facultyId,
                                 detection.value, threshold, lateThresholdMinutes, now, normOf, profiles, matches, presentIds)
  {
    profiles := [];
    matches := MatchState(map[], 0);
    presentIds := [];
    if sessionId !in db.sessions {
      return Err(LookupError("Attendance session not found")), profiles, matches, presentIds;
    }
    var session := db.sessions[sessionId];
    if session.markedBy != facultyId {
      return Err(PermissionError("Faculty can run AI capture only for own sessions")), profiles, matches, presentIds;
    }
    if session.isClosed {
      return Err(ValueError("Attendance session is already closed")), profiles, matches, presentIds;
    }
    r, profiles, matches, presentIds := CaptureForSession(db, sessionId, facultyId, session, detection, threshold,
                                                          lateThresholdMinutes, now, normOf);
  }

  // ---------------------------------------------------------------------
  // Biometric enrollment and its review.

  /** What the embedding extractor yields for the uploaded samples: their
      mean vector (before normalisation) and the model that produced the
      last of them. */
  datatype Extraction = Extraction(averaged: RawEmbedding, modelName: string)

  datatype EnrollmentSummary = EnrollmentSummary(
    studentId: Id, sampleCount: nat, approvalStatus: string, consentGiven: bool, modelName: string)

  const MinEnrollmentSamples: nat := 5
  const MaxEnrollmentSamples: nat := 10

  /** `enroll_face_profile`. `sampleCount` is the number of uploaded images;
      `extraction` is the outcome of embedding them (an extractor error
      propagates). The profile, new or existing, is reset to "pending" with
      its review cleared, and the student's legacy encoding is kept in
      step. */
  method EnrollFaceProfile(db: Database, studentId: Id, sampleCount: nat, consentGiven: bool,
                           extraction: Result<Extraction>, normOf: seq<real> -> real)
    returns (r: Result<EnrollmentSummary>)
    modifies db`faceProfiles, db`students
    ensures !consentGiven ==> r == Err(ValueError("Consent is required for biometric enrollment"))
    ensures consentGiven && !(MinEnrollmentSamples <= sampleCount <= MaxEnrollmentSamples) ==>
      r == Err(ValueError("Please upload between 5 and 10 face images"))
    ensures (consentGiven && MinEnrollmentSamples <= sampleCount <= MaxEnrollmentSamples && studentId !in old(db.students)) ==>
      r == Err(LookupError("Student not found"))
    ensures (consentGiven && MinEnrollmentSamples <= sampleCount <= MaxEnrollmentSamples && studentId in old(db.students)
             && extraction.Err?) ==> r == Err(extraction.error)
    ensures r.Ok? <==> (consentGiven && MinEnrollmentSamples <= sampleCount <= MaxEnrollmentSamples
                        && studentId in old(db.students) && extraction.Ok?
                        && NormalizeEmbedding(extraction.value.averaged, StoredNorm(normOf, extraction.value.averaged)).Ok?)
    ensures r.Err? ==> db.faceProfiles == old(db.faceProfiles) && db.students == old(db.students)
    ensures r.Ok? ==>
      var normalized := NormalizeEmbedding(extraction.value.averaged, StoredNorm(normOf, extraction.value.averaged)).value;
      && db.faceProfiles == old(db.faceProfiles)[studentId := FaceProfile(
           Vector(normalized), extraction.value.modelName, sampleCount, true, "pending", None, None)]
      && db.students == old(db.students)[studentId := old(db.students[studentId]).(faceEncoding := Some(normalized))]
      && r.value == EnrollmentSummary(studentId, sampleCount, "pending", true, extraction.value.modelName)
  {
    if !consentGiven {
      return Err(ValueError("Consent is required for biometric enrollment"));
    }
    if sampleCount < MinEnrollmentSamples || sampleCount > MaxEnrollmentSamples {
      return Err(ValueError("Please upload between 5 and 10 face images"));
    }
    if studentId !in db.students {
      return Err(LookupError("Student not found"));
    }
    if extraction.Err? {
      return Err(extraction.error);
    }
    var averaged := extraction.value.averaged;
    var normalized := NormalizeEmbedding(averaged, StoredNorm(normOf, averaged));
    if normalized.Err? {
      return Err(normalized.error);
    }
    db.faceProfiles := db.faceProfiles[studentId := FaceProfile(
      Vector(normalized.value), extraction.value.modelName, sampleCount, true, "pending", None, None)];
    db.students := db.students[studentId := db.students[studentId].(faceEncoding := Some(normalized.value))];
    r := Ok(EnrollmentSummary(studentId, sampleCount, "pending", true, extraction.value.modelName));
  }

  /** A profile awaiting (or refused) review never takes part in a capture,
      whatever its vector. */
  lemma {:induction false} UnapprovedProfileNotUsable(enrollments: map<Id, Enrollment>, faceProfiles: map<Id, FaceProfile>,
                                                      sectionId: Id, normOf: seq<real> -> real, studentId: Id)
    requires studentId in faceProfiles && faceProfiles[studentId].approvalStatus != "approved"
    ensures studentId !in UsableProfileIds(enrollments, faceProfiles, sectionId, normOf)
  {
    assert studentId !in ApprovedCandidates(enrollments, faceProfiles, sectionId);
  }

  /** Re-enrolling withdraws a student from photo capture until the new
      profile is approved. */
  lemma {:induction false} EnrollmentWithdrawsFromCapture(enrollments: map<Id, Enrollment>, faceProfiles: map<Id, FaceProfile>,
                                                          sectionId: Id, normOf: seq<real> -> real, studentId: Id,
                                                          profile: FaceProfile)
    requires profile.approvalStatus == "pending"
    ensures UsableProfileIds(enrollments, faceProfiles[studentId := profile], sectionId, normOf)
      == UsableProfileIds(enrollments, faceProfiles, sectionId, normOf) - {studentId}
  {
    var after := faceProfiles[studentId := profile];
    UnapprovedProfileNotUsable(enrollments, after, sectionId, normOf, studentId);
    forall t | t != studentId
      ensures t in UsableProfileIds(enrollments, after, sectionId, normOf)
          <==> t in UsableProfileIds(enrollments, faceProfiles, sectionId, normOf)
    {
      assert t in after <==> t in faceProfiles;
      if t in after {
        assert after[t] == faceProfiles[t];
      }
    }
  }

  datatype ReviewSummary = ReviewSummary(studentId: Id, approvalStatus: string, reviewedAt: int)

  /** `review_face_enrollment`: approve or reject a stored profile, stamping
      the reviewer and the instant `now`. */
  method ReviewFaceEnrollment(db: Database, studentId: Id, action: string, reviewerUserId: Id, now: int)
    returns (r: Result<ReviewSummary>)
    modifies db`faceProfiles
    ensures studentId !in old(db.faceProfiles) ==> r == Err(LookupError("Face enrollment profile not found"))
    ensures studentId in old(db.faceProfiles) && !AiSchema.IsReviewAction(action) ==>
      r == Err(ValueError("Action must be 'approve' or 'reject'"))
    ensures r.Ok? <==> studentId in old(db.faceProfiles) && AiSchema.IsReviewAction(action)
    ensures r.Err? ==> db.faceProfiles == old(db.faceProfiles)
    ensures r.Ok? ==>
      var status := if action == "approve" then "approved" else "rejected";
      && db.faceProfiles == old(db.faceProfiles)[studentId := old(db.faceProfiles[studentId]).(
           approvalStatus := status, reviewedBy := Some(reviewerUserId), reviewedAt := Some(now))]
      && r.value == ReviewSummary(studentId, status, now)
  {
    if studentId !in db.faceProfiles {
      return Err(LookupError("Face enrollment profile not found"));
    }
    if action != "approve" && action != "reject" {
      return Err(ValueError("Action must be 'approve' or 'reject'"));
    }
    var status := if action == "approve" then "approved" else "rejected";
    db.faceProfiles := db.faceProfiles[studentId := db.faceProfiles[studentId].(
      approvalStatus := status, reviewedBy := Some(reviewerUserId), reviewedAt := Some(now))];
    r := Ok(ReviewSummary(studentId, status, now));
  }

  /** Approving the profile of an actively enrolled student whose stored
      vector normalises makes it usable in that section's captures;
      rejecting it removes it. */
  lemma {:induction false} ReviewDecidesUsability(enrollments: map<Id, Enrollment>, faceProfiles: map<Id, FaceProfile>,
                                                  sectionId: Id, normOf: seq<real> -> real, studentId: Id,
                                                  status: string, reviewer: Id, now: int)
    requires studentId in faceProfiles && (status == "approved" || status == "rejected")
    ensures var after := faceProfiles[studentId := faceProfiles[studentId].(
              approvalStatus := status, reviewedBy := Some(reviewer), reviewedAt := Some(now))];
      studentId in UsableProfileIds(enrollments, after, sectionId, normOf)
      <==> (status == "approved" && studentId in ActiveStudentIds(enrollments, sectionId)
            && NormalizedProfile(normOf, faceProfiles[studentId]).Ok?)
  {
    var after := faceProfiles[studentId := faceProfiles[studentId].(
      approvalStatus := status, reviewedBy := Some(reviewer), reviewedAt := Some(now))];
    assert NormalizedProfile(normOf, after[studentId]) == NormalizedProfile(normOf, faceProfiles[studentId]);
  }

  // ---------------------------------------------------------------------
  // The integer rules of the food-rush prediction.

  /** Orders in these statuses still occupy the vendor. */
  const ActiveOrderStatuses: set<string> := {"pending", "confirmed", "ready"}

  /** `_classify_rush_level`. */
  function ClassifyRushLevel(rushScore: real, activeOrders: int): (level: string)
    ensures AiSchema.IsRushLevel(level)
    ensures level == "high" <==> (rushScore >= 18.0 || activeOrders >= 20)
    ensures level == "low" <==> (rushScore < 8.0 && activeOrders < 8)
  {
    if rushScore >= 18.0 || activeOrders >= 20 then "high"
    else if rushScore >= 8.0 || activeOrders >= 8 then "moderate"
    else "low"
  }

  /** The order low < moderate < high. */
  function RushRank(level: string): nat {
    if level == "high" then 2 else if level == "moderate" then 1 else 0
  }

  /** More load never lowers the rush level. */
  lemma {:induction false} RushLevelMonotone(score1: real, active1: int, score2: real, active2: int)
    requires score1 <= score2 && active1 <= active2
    ensures RushRank(ClassifyRushLevel(score1, active1)) <= RushRank(ClassifyRushLevel(score2, active2))
  {
  }

  /** The predicted wait of `predict_food_rush`, in minutes, for a level and
      the count of active orders (`//` on a count is plain division). */
  function PredictedWait(level: string, activeOrders: nat): (minutes: nat)
    ensures level == "high" ==> minutes >= 15
    ensures level == "moderate" ==> minutes >= 6
    ensures minutes >= 2
  {
    if level == "high" then Max(15, 12 + activeOrders / 2)
    else if level == "moderate" then Max(6, 5 + activeOrders / 3)
    else Max(2, 2 + activeOrders / 6)
  }

  function Max(a: nat, b: nat): (m: nat)
    ensures m >= a && m >= b && (m == a || m == b)
  {
    if a >= b then a else b
  }

  /** At a fixed level the wait grows with the number of active orders. */
  lemma {:induction false} PredictedWaitMonotone(level: string, a1: nat, a2: nat)
    requires a1 <= a2
    ensures PredictedWait(level, a1) <= PredictedWait(level, a2)
  {
    assert a1 / 2 <= a2 / 2 && a1 / 3 <= a2 / 3 && a1 / 6 <= a2 / 6;
  }

  /** For the same load, a higher level never predicts a shorter wait. */
  lemma {:induction false} PredictedWaitFollowsLevel(activeOrders: nat)
    ensures PredictedWait("low", activeOrders) <= PredictedWait("moderate", activeOrders)
    ensures PredictedWait("moderate", activeOrders) <= PredictedWait("high", activeOrders)
  {
    assert activeOrders / 6 <= activeOrders / 3 <= activeOrders / 2;
  }
}
