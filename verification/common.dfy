/** Small shared vocabulary: optional values, results, and the signed-in session. */
module Common {

  /** A value that may be missing: JavaScript's `null`/`undefined` next to a real value. */
  datatype Option<+T> = None | Some(value: T) {
    function GetOr(default: T): T {
      match this
      case Some(v) => v
      case None => default
    }
  }

  /** The outcome of an operation that can fail with an error of type `E`. */
  datatype Result<+T, +E> = Ok(value: T) | Err(error: E)

  /** Presence of an authenticated identity; it gates every remote write. */
  datatype Session = SignedOut | SignedIn(userId: string)
}
