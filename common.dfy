/** Shared vocabulary of the model: optional values, the exception kinds the
    backend raises, results, identifiers, and the string normalisation
    (strip, lower-case) that several services apply before comparing. */
module Common {

  datatype Option<T> = None | Some(value: T)

  /** The exception classes the services raise (and the HTTP errors the
      routers raise), each with its message. */
  datatype Error =
    | LookupError(message: string)
    | PermissionError(message: string)
    | ValueError(message: string)
    | RuntimeError(message: string)
    | TypeError(message: string)
    | HttpError(status: int, detail: string)

  datatype Result<T> = Ok(value: T) | Err(error: Error)

  /** UUID primary keys are modelled as opaque naturals. */
  type Id = nat

  /** No two positions of `s` hold the same value. */
  predicate Distinct<T(==)>(s: seq<T>) {
    forall i, j :: 0 <= i < j < |s| ==> s[i] != s[j]
  }

  /** The size of the set of elements equals the length exactly when the
      sequence has no repeats (the `len(x) != len(set(x))` idiom). */
  lemma {:induction false} DistinctIffSetSize<T>(s: seq<T>)
    ensures Distinct(s) <==> |set x | x in s| == |s|
  {
    if s == [] {
      assert (set x | x in s) == {};
    } else {
      var rest := s[1..];
      DistinctIffSetSize(rest);
      var all := set x | x in s;
      var tail := set x | x in rest;
      if s[0] in rest {
        assert all == tail;
        assert !Distinct(s) by {
          var k :| 0 <= k < |rest| && rest[k] == s[0];
          assert s[0] == s[k + 1];
        }
        SetOfSeqSize(rest);
      } else {
        assert all == tail + {s[0]};
        assert |all| == |tail| + 1;
        assert Distinct(s) <==> Distinct(rest) by {
          if Distinct(rest) {
            forall i, j | 0 <= i < j < |s| ensures s[i] != s[j] {
              if i == 0 {
                assert s[j] == rest[j - 1];
              } else {
                assert s[i] == rest[i - 1] && s[j] == rest[j - 1];
              }
            }
          }
          if Distinct(s) {
            forall i, j | 0 <= i < j < |rest| ensures rest[i] != rest[j] {
              assert rest[i] == s[i + 1] && rest[j] == s[j + 1];
            }
          }
        }
      }
    }
  }

  /** A sequence has at most as many distinct elements as positions. */
  lemma {:induction false} SetOfSeqSize<T>(s: seq<T>)
    ensures |set x | x in s| <= |s|
  {
    if s != [] {
      SetOfSeqSize(s[1..]);
      assert (set x | x in s) == (set x | x in s[1..]) + {s[0]};
    }
  }

  /** Every finite set of identifiers leaves some identifier unused; this is
      what lets a fresh uuid4 be drawn. */
  lemma {:induction false} FreshIdExists(ids: set<Id>)
    ensures exists id: Id :: id !in ids
  {
    var b := UpperBound(ids);
    assert b !in ids;
  }

  /** An identifier above every member of `ids`. */
  lemma {:induction false} UpperBound(ids: set<Id>) returns (b: Id)
    ensures forall x :: x in ids ==> x < b
    decreases ids
  {
    if ids == {} {
      b := 0;
    } else {
      var x :| x in ids;
      var rest := UpperBound(ids - {x});
      b := if x < rest then rest else x + 1;
      forall y | y in ids ensures y < b {
        if y != x {
          assert y in ids - {x};
        }
      }
    }
  }

  // ---------------------------------------------------------------------
  // String normalisation: Python's str.strip() and str.lower() on the ASCII
  // characters only. Non-ASCII white space is kept and non-ASCII letters
  // are not lower-cased (JavaScript's trim() is modelled separately, in
  // ErrorMessages).

  predicate IsWhitespace(c: char) {
    c == ' ' || c == '\t' || c == '\n' || c == '\r' || c == '\U{B}' || c == '\U{C}'
    || c == '\U{1C}' || c == '\U{1D}' || c == '\U{1E}' || c == '\U{1F}'
  }

  /** Drops leading whitespace. */
  function TrimStart(s: string): (r: string)
    ensures |r| <= |s|
    ensures r == s[|s| - |r|..]
    ensures r != [] ==> !IsWhitespace(r[0])
    ensures forall i :: 0 <= i < |s| - |r| ==> IsWhitespace(s[i])
  {
    if s != [] && IsWhitespace(s[0]) then TrimStart(s[1..]) else s
  }

  /** Drops trailing whitespace. */
  function TrimEnd(s: string): (r: string)
    ensures |r| <= |s|
    ensures r == s[..|r|]
    ensures r != [] ==> !IsWhitespace(r[|r| - 1])
    ensures forall i :: |r| <= i < |s| ==> IsWhitespace(s[i])
  {
    if s != [] && IsWhitespace(s[|s| - 1]) then TrimEnd(s[..|s| - 1]) else s
  }

  /** `s.strip()`: whitespace removed at both ends. */
  function Strip(s: string): (r: string)
    ensures |r| <= |s|
    ensures r != [] ==> !IsWhitespace(r[0]) && !IsWhitespace(r[|r| - 1])
  {
    TrimEnd(TrimStart(s))
  }

  /** Whether a string has no whitespace at either end. */
  predicate IsStripped(s: string) {
    s == [] || (!IsWhitespace(s[0]) && !IsWhitespace(s[|s| - 1]))
  }

  lemma {:induction false} TrimStartOfStripped(s: string)
    requires IsStripped(s)
    ensures TrimStart(s) == s
  {
  }

  lemma {:induction false} TrimEndOfStripped(s: string)
    requires IsStripped(s)
    ensures TrimEnd(s) == s
  {
  }

  /** Stripping twice is stripping once. */
  lemma StripIdempotent(s: string)
    ensures Strip(Strip(s)) == Strip(s)
  {
    var r := Strip(s);
    assert IsStripped(r);
    TrimStartOfStripped(r);
    TrimEndOfStripped(r);
  }

  function LowerChar(c: char): (r: char)
    ensures !IsWhitespace(c) ==> !IsWhitespace(r)
    ensures IsWhitespace(c) ==> r == c
  {
    if 'A' <= c <= 'Z' then (c as int - 'A' as int + 'a' as int) as char else c
  }

  /** `s.lower()` over ASCII. */
  function Lower(s: string): (r: string)
    ensures |r| == |s|
    ensures forall i :: 0 <= i < |s| ==> r[i] == LowerChar(s[i])
  {
    seq(|s|, i requires 0 <= i < |s| => LowerChar(s[i]))
  }

  /** Lower-casing twice is lower-casing once. */
  lemma LowerIdempotent(s: string)
    ensures Lower(Lower(s)) == Lower(s)
  {
  }

  /** Lower-casing keeps a stripped string stripped, so `s.strip().lower()`
      is already stripped. */
  lemma LowerKeepsStripped(s: string)
    requires IsStripped(s)
    ensures IsStripped(Lower(s))
  {
  }

  /** Python's `s.strip().lower()`, the normalisation used for e-mail
      addresses throughout the backend. */
  function NormalizeEmailText(s: string): (r: string)
  {
    Lower(Strip(s))
  }

  /** Normalising a normalised address changes nothing. */
  lemma {:induction false} NormalizeEmailTextIdempotent(s: string)
    ensures NormalizeEmailText(NormalizeEmailText(s)) == NormalizeEmailText(s)
  {
    var once := NormalizeEmailText(s);
    assert IsStripped(Strip(s));
    LowerKeepsStripped(Strip(s));
    TrimStartOfStripped(once);
    TrimEndOfStripped(once);
    assert Strip(once) == once;
    LowerIdempotent(Strip(s));
  }

  /** Whether `c` occurs in `s` (Python's `c in s`). */
  predicate Contains(s: string, c: char) {
    exists i :: 0 <= i < |s| && s[i] == c
  }

  predicate StartsWith(s: string, prefix: string) {
    |prefix| <= |s| && s[..|prefix|] == prefix
  }

  /** Python truthiness of an optional string: present and non-empty. */
  predicate Truthy(s: Option<string>) {
    s.Some? && s.value != ""
  }
}
