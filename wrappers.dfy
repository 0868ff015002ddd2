/** Option, and the HTTP-style reply used by the backend routers. */
module Wrappers {

  datatype Option<+T> = None | Some(value: T) {
    function GetOr(default: T): T {
      if Some? then value else default
    }
  }

  /** An endpoint either answers with a value or fails with an HTTP status and a detail text. */
  datatype Reply<+T> = Ok(value: T) | Fail(status: int, detail: string)

  // Status codes the routers use.
  const BadRequest := 400
  const NotFound := 404
  const Unprocessable := 422
  const ServerError := 500
}
