/** Shared result and error types of the quotation backend. */
module Base {

  datatype Option<T> = None | Some(value: T)

  /** The HTTP error kinds the handlers raise: 404, 400 (bad input), 400 (name
      taken) and 500 (a sidecar file that exists but cannot be read). */
  datatype Error = NotFound | InvalidInput | Conflict | Internal

  datatype Result<T> = Ok(value: T) | Err(error: Error)
}
