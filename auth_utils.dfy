/** Resolving the caller from a Firebase ID token: normalising the token's
    subject, choosing the Web API key, the order in which the verifiers are
    consulted, and finding (and possibly linking) the user profile. The
    verifiers themselves (Admin SDK, Google certificates, Identity Toolkit)
    are network calls; their outcomes are parameters. */
module AuthUtils {
  import opened Common
  import opened Store
  import opened StudentService

  // ---------------------------------------------------------------------
  // Subject normalisation.

  /** The claims of a decoded token that the backend reads (string-valued). */
  datatype Claims = Claims(email: Option<string>, uid: Option<string>, sub: Option<string>, emailVerified: bool)

  /** The `(email, uid)` pair the verifiers return. */
  datatype Subject = Subject(email: Option<string>, uid: Option<string>)

  const NoSubject := Subject(None, None)

  /** `_normalize_subject`: the e-mail stripped and lower-cased when
      present, the UID taken from `uid`, else `sub`, and stripped. */
  function NormalizeSubject(claims: Claims): (r: Subject)
    ensures r.email.Some? <==> Truthy(claims.email)
    ensures r.email.Some? ==> r.email.value == NormalizeEmailText(claims.email.value)
    ensures r.uid.Some? <==> Truthy(claims.uid) || Truthy(claims.sub)
    ensures Truthy(claims.uid) ==> r.uid == Some(Strip(claims.uid.value))
    ensures !Truthy(claims.uid) && Truthy(claims.sub) ==> r.uid == Some(Strip(claims.sub.value))
  {
    var email := if Truthy(claims.email) then Some(Lower(Strip(claims.email.value))) else None;
    var uid := if Truthy(claims.uid) then claims.uid else claims.sub;
    Subject(email, if Truthy(uid) then Some(Strip(uid.value)) else None)
  }

  /** A normalised subject is a fixed point of normalisation: its address
      is already normalised and its UID already stripped. */
  lemma {:induction false} NormalizedSubjectIsStable(claims: Claims)
    ensures var s := NormalizeSubject(claims);
      && (s.email.Some? ==> NormalizeEmailText(s.email.value) == s.email.value)
      && (s.uid.Some? ==> Strip(s.uid.value) == s.uid.value)
  {
    var s := NormalizeSubject(claims);
    if s.email.Some? {
      NormalizeEmailTextIdempotent(claims.email.value);
    }
    if s.uid.Some? {
      var raw := if Truthy(claims.uid) then claims.uid.value else claims.sub.value;
      StripIdempotent(raw);
    }
  }

  /** A UID of only whitespace is present in the token but normalises to
      the empty text, which the callers treat as no UID at all. */
  lemma BlankUidNormalizesToEmpty()
    ensures NormalizeSubject(Claims(None, Some(" "), None, false)).uid == Some("")
  {
    assert TrimStart(" ") == "";
  }

  // ---------------------------------------------------------------------
  // The Web API key.

  /** Python's `s.rstrip(c)`. */
  function DropTrailing(s: string, c: char): (r: string)
    ensures |r| <= |s| && r == s[..|r|]
    ensures r != [] ==> r[|r| - 1] != c
    ensures forall i :: |r| <= i < |s| ==> s[i] == c
  {
    if s != [] && s[|s| - 1] == c then DropTrailing(s[..|s| - 1], c) else s
  }

  /** Python's `s.lstrip(c)`. */
  function DropLeading(s: string, c: char): (r: string)
    ensures |r| <= |s| && r == s[|s| - |r|..]
    ensures r != [] ==> r[0] != c
  {
    if s != [] && s[0] == c then DropLeading(s[1..], c) else s
  }

  /** Python's `s.strip(c)`. */
  function StripChar(s: string, c: char): string {
    DropTrailing(DropLeading(s, c), c)
  }

  /** `_get_firebase_web_api_key`: the configured key, else the environment
      variable, else a legacy private-key setting that is really an API key
      (it starts with "AIza"), with whitespace and quotes removed. */
  function FirebaseWebApiKey(configured: Option<string>, env: Option<string>, privateKey: Option<string>): (r: Option<string>)
    ensures Truthy(configured) ==> r == Some(Strip(configured.value))
    ensures !Truthy(configured) && Truthy(env) ==> r == Some(Strip(env.value))
    ensures r.None? <==> !Truthy(configured) && !Truthy(env)
                         && !(Truthy(privateKey) && StartsWith(privateKey.value, "AIza"))
  {
    if Truthy(configured) then Some(Strip(configured.value))
    else if Truthy(env) then Some(Strip(env.value))
    else if Truthy(privateKey) && StartsWith(privateKey.value, "AIza") then Some(StripChar(Strip(privateKey.value), '"'))
    else None
  }

  /** A key recovered from the legacy setting still starts with "AIza" and
      does not end in a quote (a space before a trailing quote stays). */
  lemma {:induction false} LegacyKeyShape(privateKey: string)
    requires StartsWith(privateKey, "AIza")
    ensures var r := FirebaseWebApiKey(None, None, Some(privateKey));
      && r.Some? && StartsWith(r.value, "AIza")
      && r.value[|r.value| - 1] != '"'
  {
    assert privateKey[..4] == "AIza";
    assert privateKey[0] == 'A' && privateKey[3] == 'a';
    var started := TrimStart(privateKey);
    assert started == privateKey;
    var stripped := Strip(privateKey);
    assert stripped == TrimEnd(privateKey);
    assert |stripped| >= 4 by {
      assert !IsWhitespace(privateKey[3]);
    }
    assert stripped[..4] == "AIza";
    var unquoted := DropLeading(stripped, '"');
    assert unquoted == stripped;
    var key := DropTrailing(unquoted, '"');
    assert |key| >= 4 by {
      assert unquoted[3] == 'a';
    }
    assert key[..4] == stripped[..4];
    assert key[|key| - 1] != '"';
    assert FirebaseWebApiKey(None, None, Some(privateKey)) == Some(key);
  }

  // ---------------------------------------------------------------------
  // Choosing the verifier.

  /** `_get_subject_from_firebase`. `adminReady` says whether the Admin SDK
      is initialised; `adminOutcome` is what `verify_id_token` returned
      (`None` when it raised); `fallback` and `toolkit` are the results of
      the Google-certificate and Identity Toolkit verifiers. */
  function SubjectFromFirebase(adminReady: bool, adminOutcome: Option<Claims>, requireEmailVerified: bool,
                               fallback: Subject, toolkit: Subject): (r: Subject)
    ensures adminReady && adminOutcome.None? ==> r == NoSubject
    ensures adminReady && adminOutcome.Some? ==>
      r == (if requireEmailVerified && !adminOutcome.value.emailVerified then NoSubject
            else NormalizeSubject(adminOutcome.value))
    ensures !adminReady && Truthy(fallback.uid) ==> r == fallback
    ensures !adminReady && !Truthy(fallback.uid) ==> r == toolkit
  {
    if adminReady then
      if adminOutcome.None? then NoSubject
      else if requireEmailVerified && !adminOutcome.value.emailVerified then NoSubject
      else NormalizeSubject(adminOutcome.value)
    else if Truthy(fallback.uid) then fallback
    else toolkit
  }

  /** With the Admin SDK available neither fallback verifier is consulted:
      the outcome does not depend on them. */
  lemma {:induction false} AdminPathIgnoresFallbacks(adminOutcome: Option<Claims>, requireEmailVerified: bool,
                                                     fallback1: Subject, toolkit1: Subject,
                                                     fallback2: Subject, toolkit2: Subject)
    ensures SubjectFromFirebase(true, adminOutcome, requireEmailVerified, fallback1, toolkit1)
         == SubjectFromFirebase(true, adminOutcome, requireEmailVerified, fallback2, toolkit2)
  {
  }

  /** The Identity Toolkit is consulted only when the Google fallback gave
      no UID: with one, the toolkit's answer does not matter. */
  lemma {:induction false} ToolkitOnlyWithoutFallbackUid(fallback: Subject, toolkit1: Subject, toolkit2: Subject,
                                                         adminOutcome: Option<Claims>, requireEmailVerified: bool)
    requires Truthy(fallback.uid)
    ensures SubjectFromFirebase(false, adminOutcome, requireEmailVerified, fallback, toolkit1)
         == SubjectFromFirebase(false, adminOutcome, requireEmailVerified, fallback, toolkit2)
  {
  }

  /** `get_firebase_subject`: a subject with no UID is refused. */
  function FirebaseSubject(subject: Subject): (r: Result<Subject>)
    ensures r.Ok? <==> Truthy(subject.uid)
    ensures r.Ok? ==> r.value == subject
    ensures r.Err? ==> r.error == CredentialsError
  {
    if Truthy(subject.uid) then Ok(subject) else Err(CredentialsError)
  }

  const CredentialsError := HttpError(401, "Could not validate credentials")
  const ProfileNotFound := HttpError(404, "User profile not found. Please register first.")

  // ---------------------------------------------------------------------
  // The current user.

  /** Some user is linked to the UID. */
  predicate HasUidUser(users: map<Id, User>, uid: string) {
    exists k :: k in users && users[k].firebaseUid == Some(uid)
  }

  /** Some user's address, lower-cased, is `email`. */
  predicate HasEmailUser(users: map<Id, User>, email: string) {
    exists k :: k in users && Lower(users[k].email) == email
  }

  /** The user an e-mail match links: its UID set when linking is enabled
      and it had none. */
  function Linked(u: User, uid: string, autoLink: bool): (r: User)
    ensures r.email == u.email && r.role == u.role && r.isActive == u.isActive
    ensures autoLink && !Truthy(u.firebaseUid) ==> r.firebaseUid == Some(uid)
    ensures !(autoLink && !Truthy(u.firebaseUid)) ==> r == u
  {
    if autoLink && !Truthy(u.firebaseUid) then u.(firebaseUid := Some(uid)) else u
  }

  /** `get_current_user` for the subject the verifiers produced: look the
      user up by UID, then by address (linking the UID when `autoLink`, the
      `AUTH_AUTO_LINK_FIREBASE_UID` setting, is on and the user has none). */
  method GetCurrentUser(db: Database, subject: Subject, autoLink: bool) returns (r: Result<Id>)
    modifies db`users
    ensures !Truthy(subject.uid) ==> r == Err(CredentialsError)
    ensures Truthy(subject.uid) && HasUidUser(old(db.users), subject.uid.value) ==>
      r.Ok? && r.value in old(db.users) && old(db.users[r.value]).firebaseUid == subject.uid
    ensures Truthy(subject.uid) && !HasUidUser(old(db.users), subject.uid.value) && Truthy(subject.email)
            && HasEmailUser(old(db.users), subject.email.value) ==>
      r.Ok? && r.value in old(db.users) && Lower(old(db.users[r.value]).email) == subject.email.value
    ensures r.Ok? <==> Truthy(subject.uid) && (HasUidUser(old(db.users), subject.uid.value)
                         || (Truthy(subject.email) && HasEmailUser(old(db.users), subject.email.value)))
    ensures Truthy(subject.uid) && r.Err? ==> r == Err(ProfileNotFound)
    ensures r.Ok? ==> r.value in old(db.users)
    ensures r.Ok? && HasUidUser(old(db.users), subject.uid.value) ==> db.users == old(db.users)
    ensures r.Ok? && !HasUidUser(old(db.users), subject.uid.value) ==>
      db.users == old(db.users)[r.value := Linked(old(db.users[r.value]), subject.uid.value, autoLink)]
    ensures r.Err? ==> db.users == old(db.users)
    ensures old(EmailsUnique(db.users)) ==> EmailsUnique(db.users)
    ensures old(UidsUnique(db.users)) ==> UidsUnique(db.users)
  {
    if !Truthy(subject.uid) {
      return Err(CredentialsError);
    }
    var uid := subject.uid.value;
    if HasUidUser(db.users, uid) {
      var k :| k in db.users && db.users[k].firebaseUid == Some(uid);
      return Ok(k);
    }
    if Truthy(subject.email) && HasEmailUser(db.users, subject.email.value) {
      var k :| k in db.users && Lower(db.users[k].email) == subject.email.value;
      var user := Linked(db.users[k], uid, autoLink);
      assert !UidTaken(db.users, uid, Some(k));
      ReplaceUserKeepsUnique(db.users, k, user);
      db.users := db.users[k := user];
      return Ok(k);
    }
    return Err(ProfileNotFound);
  }
}
