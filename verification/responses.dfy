/**
 * What an action ends in, with the rendering and redirects stripped away: success, or one of the
 * failures a caller can tell apart.
 */
module Responses {

  /** 403, 404, a validation error with the failing fields, or a failed save (500). */
  datatype Failure = Forbidden | NotFound | Invalid(errors: set<string>) | ServerError

  /** The end of an action that changes the store. */
  datatype Outcome = Done | Fail(failure: Failure)

  /** The end of an action that reads the store. */
  datatype Result<T> = Ok(value: T) | Err(failure: Failure)
}
