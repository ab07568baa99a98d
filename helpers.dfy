/** Small utilities shared by the services: random access codes and the
    expiry test for time-limited codes. */
module Helpers {
  import opened Common

  /** Size of `string.ascii_uppercase + string.digits`. */
  const AlphabetSize: nat := 36

  /** The `i`-th character of `string.ascii_uppercase + string.digits`. */
  function AlphabetChar(i: nat): (c: char)
    requires i < AlphabetSize
    ensures IsCodeChar(c)
    ensures i < 26 ==> c == ('A' as int + i) as char
    ensures 26 <= i ==> c == ('0' as int + i - 26) as char
  {
    if i < 26 then ('A' as int + i) as char else ('0' as int + i - 26) as char
  }

  /** A character of `string.ascii_uppercase + string.digits`. */
  predicate IsCodeChar(c: char) {
    ('A' <= c <= 'Z') || ('0' <= c <= '9')
  }

  /** A well-formed code of the requested length. */
  predicate IsCode(code: string, length: nat) {
    |code| == length && forall i :: 0 <= i < |code| ==> IsCodeChar(code[i])
  }

  /** `generate_unique_code(length)`: each position is an arbitrary draw from
      the alphabet (the random generator is a nondeterministic choice). */
  method GenerateUniqueCode(length: nat) returns (code: string)
    ensures IsCode(code, length)
  {
    code := "";
    while |code| < length
      invariant |code| <= length
      invariant forall i :: 0 <= i < |code| ==> IsCodeChar(code[i])
    {
      var i :| 0 <= i < AlphabetSize;
      code := code + [AlphabetChar(i)];
    }
  }

  /** The redraw loop used wherever a code must be new:
      `code = generate(); while code in existing: code = generate()`.
      `draws` is the stream of codes the generator produces; the loop ends
      because some draw is unused, which is what the source relies on. */
  method PickUnusedCode(draws: seq<string>, existing: set<string>) returns (code: string, used: nat)
    requires exists k :: 0 <= k < |draws| && draws[k] !in existing
    ensures used < |draws| && code == draws[used]
    ensures code !in existing
    ensures forall k :: 0 <= k < used ==> draws[k] in existing
  {
    used := 0;
    code := draws[0];
    while code in existing
      invariant 0 <= used < |draws| && code == draws[used]
      invariant forall k :: 0 <= k < used ==> draws[k] in existing
      decreases |draws| - used
    {
      used := used + 1;
      code := draws[used];
    }
  }

  /** `is_code_expired(expiry)` with the clock passed in: expired once the
      current instant is strictly after the expiry instant. */
  predicate IsCodeExpired(now: int, expiresAt: int): (expired: bool)
    ensures now <= expiresAt ==> !expired
    ensures now > expiresAt ==> expired
  {
    now > expiresAt
  }

  /** A code is still valid at exactly its expiry instant. */
  lemma NotExpiredAtExpiry(expiresAt: int)
    ensures !IsCodeExpired(expiresAt, expiresAt)
  {
  }

  /** Once expired, a code stays expired as time moves on. */
  lemma ExpiryIsMonotone(now: int, later: int, expiresAt: int)
    requires now <= later
    ensures IsCodeExpired(now, expiresAt) ==> IsCodeExpired(later, expiresAt)
  {
  }
}
