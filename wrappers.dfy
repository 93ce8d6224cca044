/** Option and Result types, and the HTTP errors the backend raises. */
module Wrappers {

  datatype Option<T> = None | Some(value: T) {
    /** The carried value, or `default` when absent. */
    function GetOr(default: T): T {
      if Some? then value else default
    }
  }

  /** An error response: an `HTTPException(status_code, detail)`, a request
      that failed validation of its body or query parameters (FastAPI answers
      those with 422 and one message per failing field), or an exception no
      handler catches (the server's plain-text 500, with no JSON body). */
  datatype HttpError =
    | HttpError(status: nat, detail: string)
    | ValidationError(errors: seq<string>)
    | Uncaught
  {
    function Status(): nat {
      if HttpError? then status else if ValidationError? then UnprocessableEntity else InternalServerError
    }
  }

  /** The outcome of a handler: a value, or the exception it raised. */
  datatype Result<T> = Ok(value: T) | Err(error: HttpError) {
    predicate IsFailure() {
      Err?
    }

    function PropagateFailure<U>(): Result<U>
      requires Err?
    {
      Err(error)
    }

    function Extract(): T
      requires Ok?
    {
      value
    }
  }

  const BadRequest: nat := 400
  const Unauthorized: nat := 401
  const Forbidden: nat := 403
  const NotFound: nat := 404
  const UnprocessableEntity: nat := 422
  const InternalServerError: nat := 500

  /** What an unhandled Python exception (a `ValueError` from `int(...)`, say)
      turns into. */
  const Crash: HttpError := Uncaught
}
