/** Shared vocabulary: optional values, identifiers and the HTTP-level outcome of a store operation. */
module Common {

  /** A value that may be absent (a JavaScript `null`/`undefined`, an unset ref). */
  datatype Option<+T> = None | Some(value: T)

  /** Document identifiers (MongoDB ObjectIds), abstracted to naturals. */
  type Id = nat

  /** The error statuses the routes answer with. */
  datatype Status =
    | BadRequest   // 400
    | NotFound     // 404
    | ServerError  // 500

  /** The outcome of a route: a value, or an error status. */
  datatype Result<+T> = Ok(value: T) | Err(status: Status)
}
