/** `errorMiddleware`: how an error that reached Express becomes a response. */
module Errors {
  import opened Basics

  /** What a handler can throw: an HttpError, or anything else (a
      persistence failure, a programming error) carrying its own message. */
  datatype Thrown = Http(error: HttpError) | Other(message: string)

  /** The response status, the JSON payload `{ error, details }`, and whether
      the error was written to the server log. */
  datatype ErrorResponse = ErrorResponse(status: nat, error: string, details: Option<string>, logged: bool)

  function ErrorToResponse(err: Thrown): (r: ErrorResponse)
    ensures err.Http? ==>
      r.status == err.error.status && r.error == err.error.message && r.details == err.error.details
    ensures err.Other? ==> r.status == 500 && r.error == "Internal Server Error" && r.details.None?
    ensures r.logged <==> r.status >= 500
  {
    var status := if err.Http? then err.error.status else 500;
    var message := if err.Http? then err.error.message else "Internal Server Error";
    var details := if err.Http? then err.error.details else None;
    ErrorResponse(status, message, details, status >= 500)
  }

  /** The message of an unexpected error never reaches the client: any two
      such errors give the same response. */
  lemma InternalMessageNeverLeaks(m1: string, m2: string)
    ensures ErrorToResponse(Other(m1)) == ErrorToResponse(Other(m2))
  {
  }

  /** A rejected request body is answered exactly like any other unexpected
      error. */
  lemma ValidationFailureIsInternal(m: string)
    ensures ErrorToResponse(Http(ValidationFailed)) == ErrorToResponse(Other(m))
  {
  }
}
