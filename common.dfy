/** Values shared by every handler: optional values, results, and the HTTP
    failures the handlers raise (status code plus the `detail` message). */
module Common {

  datatype Option<+T> = None | Some(value: T)

  datatype Result<+T, +E> = Ok(value: T) | Err(error: E)

  /** The `HTTPException`s raised by the core, and the unhandled exception of
      `int(sub)` that FastAPI turns into a 500 response. */
  datatype Error =
    | BadRequest(detail: string)          // 400
    | Unauthorized(detail: string)        // 401
    | NotFound(detail: string)            // 404
    | InternalServerError(detail: string) // 500, an exception nobody catches
}
