/** Shared value types of the server model: optional values, validation
    results and the HTTP replies that every route handler produces. */
module Common {

  datatype Option<+T> = None | Some(value: T)

  /** The outcome of a schema validation: the validated record, or the
      message of the validation error that `save()` rejects with. */
  datatype Result<+T> = Ok(value: T) | Err(message: string)

  /** What a route handler sends back: a success status with the JSON
      payload, or an error status with the `message` field of the body. */
  datatype Reply<+T> = Success(status: nat, value: T) | Failure(status: nat, message: string)

  const OK: nat := 200
  const CREATED: nat := 201
  const BAD_REQUEST: nat := 400
  const FORBIDDEN: nat := 403
  const NOT_FOUND: nat := 404
  const SERVER_ERROR: nat := 500
}
