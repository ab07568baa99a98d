/** `POST /api/auth/register`: creating (or linking) the profile of a user
    who has already authenticated with Firebase. */
module AuthApi {
  import opened Common
  import opened Store
  import opened StudentService
  import opened AuthUtils

  // ---------------------------------------------------------------------
  // The admin guard.

  /** Python's `str()` of a `UserRole` member. `UserRole` mixes `str` into
      `Enum` without overriding `__str__`, so `str()` gives the qualified
      member name, not the value. */
  function PythonStr(role: Role): string {
    match role
    case StudentRole => "UserRole.STUDENT"
    case FacultyRole => "UserRole.FACULTY"
    case AdminRole => "UserRole.ADMIN"
    case VendorRole => "UserRole.VENDOR"
  }

  /** The guard as written: `str(user_data.role) == "admin"`. */
  predicate AdminGuardAsWritten(role: Role) {
    PythonStr(role) == "admin"
  }

  /** The guard as written never fires, not even for an admin: admin
      self-registration is let through. */
  lemma AdminGuardAsWrittenNeverFires()
    ensures forall role :: !AdminGuardAsWritten(role)
    ensures !AdminGuardAsWritten(AdminRole)
  {
  }

  /** The guard as intended: compare the role's value. */
  predicate AdminGuard(role: Role) {
    RoleValue(role) == "admin"
  }

  /** The corrected guard refuses exactly the admin role. */
  lemma AdminGuardFiresExactlyForAdmin(role: Role)
    ensures AdminGuard(role) <==> role == AdminRole
  {
  }

  const AdminForbidden := HttpError(403, "Admin self-registration is not allowed")
  const TokenWithoutEmail := HttpError(400, "Firebase token does not include an email")
  const EmailMismatch := HttpError(400, "Email must match authenticated Firebase user")
  const EmailLinkedElsewhere := HttpError(409, "Email is already linked to another Firebase account")

  /** The user a registration with a matching address may link: one with no
      UID or with this very UID. */
  predicate Linkable(u: User, uid: string) {
    !(Truthy(u.firebaseUid) && u.firebaseUid != Some(uid))
  }

  /** Every user whose address matches `email` once lower-cased may be
      linked to `uid`. */
  predicate EveryEmailMatchLinkable(users: map<Id, User>, email: string, uid: string) {
    forall k :: k in users && Lower(users[k].email) == email ==> Linkable(users[k], uid)
  }

  /** No user whose address matches `email` once lower-cased may be linked
      to `uid`: each already holds another UID. */
  predicate NoEmailMatchLinkable(users: map<Id, User>, email: string, uid: string) {
    forall k :: k in users && Lower(users[k].email) == email ==> !Linkable(users[k], uid)
  }

  /** A stored address equal, lower-cased, to a normalised one is that
      address itself, so the lower-cased lookup and the unique-address
      invariant speak about the same users. */
  lemma {:induction false} LowerMatchIsEqual(stored: string, requested: string)
    requires stored == NormalizeEmailText(requested)
    ensures Lower(stored) == NormalizeEmailText(requested)
  {
    LowerIdempotent(Strip(requested));
  }

  /** `register`, with the corrected admin guard. `tokenEmail` and `uid`
      are the subject `get_firebase_subject` accepted (so the UID is
      non-empty); `requestedEmail` is the payload's address. */
  method Register(db: Database, role: Role, requestedEmail: string, tokenEmail: Option<string>, uid: string)
    returns (r: Result<Id>)
    requires uid != ""
    modifies db`users
    ensures role == AdminRole ==> r == Err(AdminForbidden)
    ensures role != AdminRole && !Truthy(tokenEmail) ==> r == Err(TokenWithoutEmail)
    ensures (role != AdminRole && Truthy(tokenEmail)
             && NormalizeEmailText(tokenEmail.value) != NormalizeEmailText(requestedEmail)) ==> r == Err(EmailMismatch)
    ensures r.Err? ==> db.users == old(db.users)
    ensures r.Ok? ==> role != AdminRole && Truthy(tokenEmail)
                      && NormalizeEmailText(tokenEmail.value) == NormalizeEmailText(requestedEmail)
    // A user already holding the UID is returned unchanged.
    ensures r.Ok? && HasUidUser(old(db.users), uid) ==>
      r.value in old(db.users) && old(db.users)[r.value].firebaseUid == Some(uid) && db.users == old(db.users)
    // Otherwise a user with the address is linked, or refused when it holds another UID.
    ensures r == Err(EmailLinkedElsewhere) ==>
      !HasUidUser(old(db.users), uid) && HasEmailUser(old(db.users), NormalizeEmailText(requestedEmail))
    ensures r.Ok? && !HasUidUser(old(db.users), uid) && HasEmailUser(old(db.users), NormalizeEmailText(requestedEmail)) ==>
      && r.value in old(db.users)
      && Lower(old(db.users)[r.value].email) == NormalizeEmailText(requestedEmail)
      && Linkable(old(db.users)[r.value], uid)
      && db.users == old(db.users)[r.value := old(db.users)[r.value].(firebaseUid := Some(uid))]
    // Otherwise exactly one new user.
    ensures r.Ok? && !HasUidUser(old(db.users), uid) && !HasEmailUser(old(db.users), NormalizeEmailText(requestedEmail)) ==>
      && r.value !in old(db.users)
      && db.users == old(db.users)[r.value := User(NormalizeEmailText(requestedEmail), Some(uid), role, true)]
    // The user the address lookup finds decides between linking and 409.
    ensures (role != AdminRole && Truthy(tokenEmail)
             && NormalizeEmailText(tokenEmail.value) == NormalizeEmailText(requestedEmail)
             && !HasUidUser(old(db.users), uid) && HasEmailUser(old(db.users), NormalizeEmailText(requestedEmail))) ==>
      (r.Ok? || r == Err(EmailLinkedElsewhere))
      && (EveryEmailMatchLinkable(old(db.users), NormalizeEmailText(requestedEmail), uid) ==> r.Ok?)
      && (NoEmailMatchLinkable(old(db.users), NormalizeEmailText(requestedEmail), uid) ==> r == Err(EmailLinkedElsewhere))
    ensures (role != AdminRole && Truthy(tokenEmail)
             && NormalizeEmailText(tokenEmail.value) == NormalizeEmailText(requestedEmail)
             && (HasUidUser(old(db.users), uid) || !HasEmailUser(old(db.users), NormalizeEmailText(requestedEmail)))) ==> r.Ok?
    // Afterwards the UID is registered.
    ensures r.Ok? ==> r.value in db.users && db.users[r.value].firebaseUid == Some(uid)
    ensures old(EmailsUnique(db.users)) ==> EmailsUnique(db.users)
    ensures old(UidsUnique(db.users)) ==> UidsUnique(db.users)
  {
    if AdminGuard(role) {
      return Err(AdminForbidden);
    }
    if !Truthy(tokenEmail) {
      return Err(TokenWithoutEmail);
    }
    var normalizedEmail := NormalizedAddress(tokenEmail.value);
    var requested := NormalizedAddress(requestedEmail);
    if normalizedEmail != requested {
      return Err(EmailMismatch);
    }
    if HasUidUser(db.users, uid) {
      var k :| k in db.users && db.users[k].firebaseUid == Some(uid);
      return Ok(k);
    }
    if HasEmailUser(db.users, normalizedEmail) {
      var k :| k in db.users && Lower(db.users[k].email) == normalizedEmail;
      if !Linkable(db.users[k], uid) {
        return Err(EmailLinkedElsewhere);
      }
      var user := db.users[k].(firebaseUid := Some(uid));
      assert !UidTaken(db.users, uid, Some(k));
      ReplaceUserKeepsUnique(db.users, k, user);
      db.users := db.users[k := user];
      return Ok(k);
    }
    var newUserId := FreshKey(db.users);
    var user := User(normalizedEmail, Some(uid), role, true);
    assert !EmailTaken(db.users, normalizedEmail, None) by {
      forall k | k in db.users ensures db.users[k].email != normalizedEmail {
        if db.users[k].email == normalizedEmail {
          LowerMatchIsEqual(db.users[k].email, tokenEmail.value);
        }
      }
    }
    InsertUserKeepsUnique(db.users, newUserId, user);
    db.users := db.users[newUserId := user];
    r := Ok(newUserId);
  }
}
