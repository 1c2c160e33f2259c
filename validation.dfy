/**
 * What the routes use of express-validator: a request body field read as a
 * string, the checks the routes chain on it, and the error list the
 * controllers answer 400 with. The checks of one route run field by field
 * in declaration order, and every failing field contributes one error.
 */
module Validation {
  import opened Http

  /** A JSON request body whose fields are strings. */
  type RequestBody = map<string, string>

  /** A sanitized input and the errors its validation chain collected. */
  datatype Checked<T> = Checked(value: T, errors: seq<FieldError>)

  /** `body(key)`: a missing field reads as the empty string. */
  function Field(body: RequestBody, key: string): string {
    if key in body then body[key] else ""
  }

  /** `.withMessage(msg)` on a check that passed (`ok`) or failed. */
  function Require(ok: bool, path: string, msg: string): (r: seq<FieldError>)
    ensures ok <==> r == []
    ensures !ok ==> r == [FieldError(path, msg)]
  {
    if ok then [] else [FieldError(path, msg)]
  }

  /** The number of U+FE0E and U+FE0F variation selectors in `s`. */
  function Selectors(s: string): (n: nat)
    ensures n <= |s|
  {
    if s == [] then 0
    else (if s[0] == '\U{FE0E}' || s[0] == '\U{FE0F}' then 1 else 0) + Selectors(s[1..])
  }

  /**
   * The length `isLength` measures: characters (a character outside the
   * Basic Multilingual Plane counts once, not as two UTF-16 units), not
   * counting emoji variation selectors.
   */
  function CharLength(s: string): (n: nat)
    ensures n <= |s|
  {
    |s| - Selectors(s)
  }

  /** Without variation selectors the measured length is the plain length. */
  lemma {:induction false} CharLengthPlain(s: string)
    requires forall i :: 0 <= i < |s| ==> s[i] != '\U{FE0E}' && s[i] != '\U{FE0F}'
    ensures CharLength(s) == |s|
  {
    if s != [] {
      CharLengthPlain(s[1..]);
    }
  }

  /** Variation selectors alone are never long enough. */
  lemma {:induction false} SelectorsOnlyMeasureZero(s: string)
    requires forall i :: 0 <= i < |s| ==> s[i] == '\U{FE0F}'
    ensures CharLength(s) == 0
  {
    if s != [] {
      SelectorsOnlyMeasureZero(s[1..]);
    }
  }
}
