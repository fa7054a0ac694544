/** Small value types shared by every handler: optional values, the HTTP
    error a handler throws, the result of a handler, and the verdict of a
    middleware gate. */
module Basics {

  datatype Option<T> = None | Some(value: T) {
    /** The `??` operator of the source: the value, or `default` when absent. */
    function GetOr(default: T): T {
      if Some? then value else default
    }
  }

  /** An `HttpError(status, message, details)` as thrown by the handlers. */
  datatype HttpError = HttpError(status: nat, message: string, details: Option<string>)

  /** The handlers never pass details, so this is how they build errors. */
  function Fail(status: nat, message: string): HttpError {
    HttpError(status, message, None)
  }

  /** A request body the handler's schema rejects makes it throw a
      validation error, which is not an HttpError: the error middleware
      answers it as it answers every unexpected error. */
  const ValidationFailed: HttpError := HttpError(500, "Internal Server Error", None)

  /** A write the database refuses (a unique constraint, for one) makes
      Prisma throw its own error, which is not an HttpError either: it is
      answered like every unexpected error. */
  const DatabaseFailed: HttpError := HttpError(500, "Internal Server Error", None)

  /** What a handler produces: a value, or the HttpError it threw. */
  datatype Result<T> = Ok(value: T) | Err(error: HttpError)

  /** What a middleware does: call `next()` or `next(error)`. */
  datatype Gate = Allow | Deny(error: HttpError)

  /** A character outside the Basic Multilingual Plane, which JavaScript
      stores as a surrogate pair. */
  predicate Astral(c: char) {
    c as int > 0xFFFF
  }

  /** A string's JavaScript `.length`: UTF-16 code units, two for each
      astral character and one for every other. */
  function Utf16Length(s: string): (n: nat)
    ensures |s| <= n <= 2 * |s|
    ensures n == |s| <==> forall i :: 0 <= i < |s| ==> !Astral(s[i])
  {
    if |s| == 0 then 0
    else
      var pre := s[..|s| - 1];
      assert forall i :: 0 <= i < |pre| ==> pre[i] == s[i];
      Utf16Length(pre) + (if Astral(s[|s| - 1]) then 2 else 1)
  }

  /** A single emoji is one character but two code units. */
  lemma EmojiIsTwoUnits()
    ensures |"\U{1F600}"| == 1 && Utf16Length("\U{1F600}") == 2
  {
    assert Astral("\U{1F600}"[0]);
  }

  function Min(a: int, b: int): int {
    if a <= b then a else b
  }
}
