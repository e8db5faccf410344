/** Value wrappers shared by every module of the model: a nullable value,
    and the two shapes an operation that may throw takes. An exception is
    represented by its message, which is what the handlers report. */
module Common {

  /** A value that may be null. */
  datatype Option<+T> = None | Some(value: T) {
    /** `x ?? fallback` */
    function GetOr(fallback: T): T {
      if Some? then value else fallback
    }
  }

  /** A void operation that either completes or throws with a message. */
  datatype Outcome = Pass | Fail(message: string)

  /** An operation that either yields a value or throws with a message. */
  datatype Result<+T> = Ok(value: T) | Err(message: string)
}
