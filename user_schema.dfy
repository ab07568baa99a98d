/** Request shape for user registration: `UserCreate.normalize_email`. */
module UserSchema {
  import opened Common

  predicate EndsWith(s: string, suffix: string) {
    |suffix| <= |s| && s[|s| - |suffix|..] == suffix
  }

  /** The shape the validator demands of a normalised address: an `@` that
      is neither the first nor the last character. */
  predicate PlausibleEmail(email: string) {
    Contains(email, '@') && !StartsWith(email, "@") && !EndsWith(email, "@")
  }

  /** `normalize_email`: strip and lower-case, then refuse an address with
      no `@` or with `@` at either end. */
  function NormalizeEmail(value: string): (r: Result<string>)
    ensures r.Ok? <==> PlausibleEmail(NormalizeEmailText(value))
    ensures r.Ok? ==> r.value == NormalizeEmailText(value)
    ensures r.Ok? ==> IsStripped(r.value)
  {
    var email := NormalizeEmailText(value);
    assert IsStripped(Strip(value));
    LowerKeepsStripped(Strip(value));
    if !Contains(email, '@') || StartsWith(email, "@") || EndsWith(email, "@") then
      Err(ValueError("Invalid email format"))
    else
      Ok(email)
  }

  /** An accepted address has a non-empty local part and a non-empty domain
      around an `@`. */
  lemma {:induction false} AcceptedEmailShape(value: string)
    requires NormalizeEmail(value).Ok?
    ensures var e := NormalizeEmail(value).value;
      |e| >= 3 && e[0] != '@' && e[|e| - 1] != '@'
  {
    var e := NormalizeEmail(value).value;
    var i :| 0 <= i < |e| && e[i] == '@';
    assert e[..1] != "@";
    assert e[|e| - 1..] != "@";
    assert 0 < i < |e| - 1;
  }

  /** An accepted address normalises to itself. */
  lemma {:induction false} NormalizeEmailIdempotent(value: string)
    requires NormalizeEmail(value).Ok?
    ensures NormalizeEmail(NormalizeEmail(value).value) == NormalizeEmail(value)
  {
    NormalizeEmailTextIdempotent(value);
  }
}
