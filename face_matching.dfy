/** The numeric core of face attendance: embedding normalisation, the
    similarity score, the nearest-profile scan for one detected face and the
    per-student collision rule that turns a photo's faces into matches.
    Vectors are sequences of reals; the Euclidean norm, which needs a square
    root, is supplied by the numeric layer as a number whose square is the
    sum of squares. */
module FaceMatching {
  import opened Common

  /** What `np.asarray(vector)` yields: a one-dimensional array, or
      anything else (a nested or ragged list, a scalar). */
  datatype RawEmbedding = Vector(values: seq<real>) | NotOneDimensional

  /** The norm below which a vector counts as zero (`1e-8`). */
  const MinNorm: real := 0.00000001

  function SquaredNorm(v: seq<real>): (r: real)
    ensures r >= 0.0
  {
    if v == [] then 0.0 else v[0] * v[0] + SquaredNorm(v[1..])
  }

  function Scale(v: seq<real>, k: real): (r: seq<real>)
    ensures |r| == |v|
    ensures forall i :: 0 <= i < |v| ==> r[i] == v[i] * k
  {
    seq(|v|, i requires 0 <= i < |v| => v[i] * k)
  }

  /** `_normalize_embedding`: refuses a non-1-D input and a vector whose
      norm is at most `1e-8`; otherwise divides every entry by the norm.
      `norm` is `np.linalg.norm` of the vector. */
  function NormalizeEmbedding(raw: RawEmbedding, norm: real): (r: Result<seq<real>>)
    ensures raw.NotOneDimensional? ==> r == Err(ValueError("Embedding vector must be one-dimensional"))
    ensures raw.Vector? && norm <= MinNorm ==> r == Err(ValueError("Embedding norm is zero"))
    ensures r.Ok? <==> raw.Vector? && norm > MinNorm
    ensures r.Ok? ==> (|r.value| == |raw.values|
                       && forall i :: 0 <= i < |raw.values| ==> r.value[i] * norm == raw.values[i])
  {
    match raw
    case NotOneDimensional => Err(ValueError("Embedding vector must be one-dimensional"))
    case Vector(v) =>
      if norm <= MinNorm then Err(ValueError("Embedding norm is zero"))
      else Ok(Scale(v, 1.0 / norm))
  }

  lemma {:induction false} SquaredNormScale(v: seq<real>, k: real)
    ensures SquaredNorm(Scale(v, k)) == k * k * SquaredNorm(v)
  {
    if v != [] {
      var w := Scale(v, k);
      assert w[1..] == Scale(v[1..], k) by {
        forall i | 0 <= i < |v| - 1 ensures w[1..][i] == Scale(v[1..], k)[i] {
          assert w[i + 1] == v[i + 1] * k;
        }
      }
      assert w[0] == v[0] * k;
      SquaredNormScale(v[1..], k);
      assert SquaredNorm(w[1..]) == k * k * SquaredNorm(v[1..]);
      calc {
        SquaredNorm(w);
        w[0] * w[0] + SquaredNorm(w[1..]);
        (v[0] * k) * (v[0] * k) + k * k * SquaredNorm(v[1..]);
        k * k * (v[0] * v[0] + SquaredNorm(v[1..]));
        k * k * SquaredNorm(v);
      }
    }
  }

  /** A normalised embedding has unit length. */
  lemma {:induction false} NormalizedIsUnit(v: seq<real>, norm: real)
    requires norm > MinNorm && norm * norm == SquaredNorm(v)
    ensures NormalizeEmbedding(Vector(v), norm).Ok?
    ensures SquaredNorm(NormalizeEmbedding(Vector(v), norm).value) == 1.0
  {
    SquaredNormScale(v, 1.0 / norm);
    assert (1.0 / norm) * (1.0 / norm) * (norm * norm) == 1.0;
  }

  function Dot(a: seq<real>, b: seq<real>): real
    requires |a| == |b|
  {
    if a == [] then 0.0 else a[0] * b[0] + Dot(a[1..], b[1..])
  }

  /** The dot product is symmetric in its arguments. */
  lemma {:induction false} DotSymmetric(a: seq<real>, b: seq<real>)
    requires |a| == |b|
    ensures Dot(a, b) == Dot(b, a)
  {
    if a != [] {
      DotSymmetric(a[1..], b[1..]);
    }
  }

  /** A vector's dot product with itself is its squared length. */
  lemma {:induction false} SelfDot(a: seq<real>)
    ensures Dot(a, a) == SquaredNorm(a)
  {
    if a != [] {
      SelfDot(a[1..]);
    }
  }

  /** `_cosine_similarity`: the dot product of two vectors that were each
      normalised beforehand, so it is the cosine of their angle. The score
      is symmetric, and a vector scores its squared length against itself,
      so a unit vector scores 1 against itself. */
  function CosineSimilarity(a: seq<real>, b: seq<real>): (r: real)
    requires |a| == |b|
    ensures r == Dot(b, a)
    ensures a == b ==> r == SquaredNorm(a)
  {
    DotSymmetric(a, b);
    SelfDot(a);
    Dot(a, b)
  }

  // ---------------------------------------------------------------------
  // Nearest profile for one detected face.

  /** An approved, normalised face profile. */
  datatype Profile = Profile(studentId: Id, embedding: seq<real>)

  /** Every detected face has the dimension of every profile (otherwise the
      dot product raises). */
  predicate Conformable(faces: seq<seq<real>>, profiles: seq<Profile>) {
    forall f, p :: 0 <= f < |faces| && 0 <= p < |profiles| ==> |faces[f]| == |profiles[p].embedding|
  }

  predicate FitsProfiles(face: seq<real>, profiles: seq<Profile>) {
    forall p :: 0 <= p < |profiles| ==> |face| == |profiles[p].embedding|
  }

  function Sim(face: seq<real>, profiles: seq<Profile>, p: nat): real
    requires p < |profiles| && FitsProfiles(face, profiles)
  {
    CosineSimilarity(face, profiles[p].embedding)
  }

  /** State of the scan over profiles: the index of the best profile so far
      (`best_student_id`) and its score (`best_similarity`). */
  datatype ScanState = ScanState(best: Option<nat>, bestSimilarity: real)

  /** The scan after the first `n` profiles, starting from
      `best_similarity = -1.0` and replacing only on a strictly higher score. */
  function ScanUpTo(face: seq<real>, profiles: seq<Profile>, n: nat): (s: ScanState)
    requires n <= |profiles| && FitsProfiles(face, profiles)
    ensures s.best.Some? ==> s.best.value < n
  {
    if n == 0 then ScanState(None, -1.0)
    else
      var prev := ScanUpTo(face, profiles, n - 1);
      if Sim(face, profiles, n - 1) > prev.bestSimilarity then ScanState(Some(n - 1), Sim(face, profiles, n - 1))
      else prev
  }

  /** What the scan finds, stated without the loop: no profile when every
      score is at most -1; otherwise the first profile reaching the maximum
      score, with that score. */
  lemma {:induction false} ScanFindsFirstMaximum(face: seq<real>, profiles: seq<Profile>, n: nat)
    requires n <= |profiles| && FitsProfiles(face, profiles)
    ensures var s := ScanUpTo(face, profiles, n);
      && (s.best.None? <==> forall j :: 0 <= j < n ==> Sim(face, profiles, j) <= -1.0)
      && (s.best.None? ==> s.bestSimilarity == -1.0)
      && (s.best.Some? ==>
            && s.bestSimilarity == Sim(face, profiles, s.best.value)
            && s.bestSimilarity > -1.0
            && (forall j :: 0 <= j < n ==> Sim(face, profiles, j) <= s.bestSimilarity)
            && (forall j :: 0 <= j < s.best.value ==> Sim(face, profiles, j) < s.bestSimilarity))
  {
    if n > 0 {
      ScanFindsFirstMaximum(face, profiles, n - 1);
    }
  }

  // ---------------------------------------------------------------------
  // The collision rule over all detected faces.

  /** `best_match_for_student` (student to best accepted score) and
      `proxy_alerts`. */
  datatype MatchState = MatchState(best: map<Id, real>, proxyAlerts: nat)

  /** One accepted claim of `student` with score `similarity`: a first claim
      is stored; a later one counts one proxy alert and replaces the stored
      score only when strictly higher. */
  function Claim(st: MatchState, student: Id, similarity: real): (r: MatchState)
    ensures r.proxyAlerts == st.proxyAlerts + (if student in st.best then 1 else 0)
    ensures r.best.Keys == st.best.Keys + {student}
    ensures student in st.best ==> r.best[student] == (if similarity > st.best[student] then similarity else st.best[student])
    ensures student !in st.best ==> r.best[student] == similarity
    ensures forall s :: s in st.best && s != student ==> r.best[s] == st.best[s]
  {
    if student in st.best && similarity <= st.best[student] then
      MatchState(st.best, st.proxyAlerts + 1)
    else if student in st.best then
      MatchState(st.best[student := similarity], st.proxyAlerts + 1)
    else
      MatchState(st.best[student := similarity], st.proxyAlerts)
  }

  /** Whether the face is accepted: some profile scored above -1 and the
      best score reaches the threshold. */
  predicate Accepted(face: seq<real>, profiles: seq<Profile>, threshold: real)
    requires FitsProfiles(face, profiles)
  {
    var s := ScanUpTo(face, profiles, |profiles|);
    s.best.Some? && s.bestSimilarity >= threshold
  }

  /** The student an accepted face is assigned to, and its score. */
  function Winner(face: seq<real>, profiles: seq<Profile>, threshold: real): Id
    requires FitsProfiles(face, profiles) && Accepted(face, profiles, threshold)
  {
    profiles[ScanUpTo(face, profiles, |profiles|).best.value].studentId
  }

  function WinningScore(face: seq<real>, profiles: seq<Profile>, threshold: real): real
    requires FitsProfiles(face, profiles)
  {
    ScanUpTo(face, profiles, |profiles|).bestSimilarity
  }

  /** One detected face: dropped when not accepted, otherwise a claim for
      its best profile's student. */
  function MatchFace(st: MatchState, face: seq<real>, profiles: seq<Profile>, threshold: real): MatchState
    requires FitsProfiles(face, profiles)
  {
    if Accepted(face, profiles, threshold) then
      Claim(st, Winner(face, profiles, threshold), WinningScore(face, profiles, threshold))
    else st
  }

  /** The state after the first `n` detected faces, in detection order. */
  function MatchUpTo(faces: seq<seq<real>>, profiles: seq<Profile>, threshold: real, n: nat): MatchState
    requires n <= |faces| && Conformable(faces, profiles)
  {
    if n == 0 then MatchState(map[], 0)
    else MatchFace(MatchUpTo(faces, profiles, threshold, n - 1), faces[n - 1], profiles, threshold)
  }

  function MatchAll(faces: seq<seq<real>>, profiles: seq<Profile>, threshold: real): MatchState
    requires Conformable(faces, profiles)
  {
    MatchUpTo(faces, profiles, threshold, |faces|)
  }

  /** Number of accepted faces among the first `n`. */
  function AcceptedCount(faces: seq<seq<real>>, profiles: seq<Profile>, threshold: real, n: nat): (c: nat)
    requires n <= |faces| && Conformable(faces, profiles)
    ensures c <= n
  {
    if n == 0 then 0
    else AcceptedCount(faces, profiles, threshold, n - 1) + (if Accepted(faces[n - 1], profiles, threshold) then 1 else 0)
  }

  /** Every accepted face either creates a student's entry or raises one
      proxy alert: entries plus alerts equal accepted faces, hence
      `matched_students` never exceeds the number of detected faces. */
  lemma {:induction false} EntriesPlusAlertsCountAcceptedFaces(faces: seq<seq<real>>, profiles: seq<Profile>, threshold: real, n: nat)
    requires n <= |faces| && Conformable(faces, profiles)
    ensures var st := MatchUpTo(faces, profiles, threshold, n);
      |st.best| + st.proxyAlerts == AcceptedCount(faces, profiles, threshold, n)
      && |st.best| <= n
  {
    if n > 0 {
      EntriesPlusAlertsCountAcceptedFaces(faces, profiles, threshold, n - 1);
      var prev := MatchUpTo(faces, profiles, threshold, n - 1);
      var face := faces[n - 1];
      if Accepted(face, profiles, threshold) {
        var w := Winner(face, profiles, threshold);
        var cur := MatchUpTo(faces, profiles, threshold, n);
        if w in prev.best {
          assert cur.best.Keys == prev.best.Keys;
        } else {
          assert cur.best.Keys == prev.best.Keys + {w};
        }
      }
    }
  }

  function ProfileIds(profiles: seq<Profile>): set<Id> {
    set p | p in profiles :: p.studentId
  }

  /** Only profiled students get an entry, and every entry's score reaches
      the threshold; hence `matched_students` never exceeds the number of
      profiles. */
  lemma {:induction false} EntriesAreProfiledAndAboveThreshold(faces: seq<seq<real>>, profiles: seq<Profile>, threshold: real, n: nat)
    requires n <= |faces| && Conformable(faces, profiles)
    ensures var st := MatchUpTo(faces, profiles, threshold, n);
      st.best.Keys <= ProfileIds(profiles)
      && |st.best| <= |profiles|
      && forall s :: s in st.best ==> st.best[s] >= threshold
  {
    var st := MatchUpTo(faces, profiles, threshold, n);
    if n > 0 {
      EntriesAreProfiledAndAboveThreshold(faces, profiles, threshold, n - 1);
      var face := faces[n - 1];
      if Accepted(face, profiles, threshold) {
        var k := ScanUpTo(face, profiles, |profiles|).best.value;
        assert profiles[k] in profiles;
      }
    }
    ProfileIdsSize(profiles);
    assert |st.best.Keys| <= |ProfileIds(profiles)| by {
      SubsetCardinality(st.best.Keys, ProfileIds(profiles));
    }
  }

  lemma {:induction false} ProfileIdsSize(profiles: seq<Profile>)
    ensures |ProfileIds(profiles)| <= |profiles|
  {
    if profiles != [] {
      ProfileIdsSize(profiles[1..]);
      assert ProfileIds(profiles) == ProfileIds(profiles[1..]) + {profiles[0].studentId};
    }
  }

  lemma {:induction false} SubsetCardinality<T>(a: set<T>, b: set<T>)
    requires a <= b
    ensures |a| <= |b|
  {
    assert b == a + (b - a);
  }

  /** The scores of the accepted faces among the first `n` that were
      assigned to `student`, in detection order. */
  function ClaimsOf(faces: seq<seq<real>>, profiles: seq<Profile>, threshold: real, n: nat, student: Id): seq<real>
    requires n <= |faces| && Conformable(faces, profiles)
  {
    if n == 0 then []
    else
      var earlier := ClaimsOf(faces, profiles, threshold, n - 1, student);
      var face := faces[n - 1];
      if Accepted(face, profiles, threshold) && Winner(face, profiles, threshold) == student then
        earlier + [WinningScore(face, profiles, threshold)]
      else earlier
  }

  /** The entry kept for a student is the best of that student's claims,
      and a student without claims has no entry. */
  lemma {:induction false} EntryIsBestClaim(faces: seq<seq<real>>, profiles: seq<Profile>, threshold: real, n: nat, student: Id)
    requires n <= |faces| && Conformable(faces, profiles)
    ensures var st := MatchUpTo(faces, profiles, threshold, n);
      var claims := ClaimsOf(faces, profiles, threshold, n, student);
      && (student in st.best <==> |claims| > 0)
      && (student in st.best ==> (st.best[student] in claims
                                   && forall i :: 0 <= i < |claims| ==> claims[i] <= st.best[student]))
  {
    if n > 0 {
      EntryIsBestClaim(faces, profiles, threshold, n - 1, student);
    }
  }

  /** The imperative matching loop of `capture_attendance_from_photo`: for
      every detected face, scan all profiles for the strictly best score,
      drop the face below the threshold, then apply the collision rule. */
  method MatchDetectedFaces(faces: seq<seq<real>>, profiles: seq<Profile>, threshold: real)
    returns (best: map<Id, real>, proxyAlerts: nat)
    requires Conformable(faces, profiles)
    ensures MatchState(best, proxyAlerts) == MatchAll(faces, profiles, threshold)
  {
    best := map[];
    proxyAlerts := 0;
    var f := 0;
    while f < |faces|
      invariant 0 <= f <= |faces|
      invariant MatchState(best, proxyAlerts) == MatchUpTo(faces, profiles, threshold, f)
    {
      var detected := faces[f];
      assert FitsProfiles(detected, profiles);
      var bestIndex: Option<nat> := None;
      var bestSimilarity := -1.0;
      var p := 0;
      while p < |profiles|
        invariant 0 <= p <= |profiles|
        invariant ScanState(bestIndex, bestSimilarity) == ScanUpTo(detected, profiles, p)
      {
        var similarity := CosineSimilarity(detected, profiles[p].embedding);
        if similarity > bestSimilarity {
          bestSimilarity := similarity;
          bestIndex := Some(p);
        }
        p := p + 1;
      }
      if bestIndex.Some? && bestSimilarity >= threshold {
        var student := profiles[bestIndex.value].studentId;
        if student in best && bestSimilarity <= best[student] {
          proxyAlerts := proxyAlerts + 1;
        } else {
          if student in best {
            proxyAlerts := proxyAlerts + 1;
          }
          best := best[student := bestSimilarity];
        }
      }
      f := f + 1;
    }
  }
}
