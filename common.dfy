/** Failure-compatible wrappers shared by the clinic model. */
module Common {

  /** A value that may be absent: a nullable column or an optional form field. */
  datatype Option<+T> = None | Some(value: T)

  /** The errors the modelled operations surface to their callers. */
  datatype Error =
    | NotFound          // the object looked up by primary key does not exist (HTTP 404)
    | InvalidForm       // the submitted form does not validate; nothing is saved
    | IntegrityError    // a unique constraint of the database is violated
    | Protected         // a PROTECT foreign key forbids the deletion
    | BatchRejected     // the storage layer refused an atomic batch insert

  /** Success with no value, or a failure carrying an error. */
  datatype Outcome = Pass | Fail(error: Error)

  /** Success with a value, or a failure carrying an error. */
  datatype Result<+R> = Ok(value: R) | Err(error: Error)
}
