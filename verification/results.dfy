/** Optional values and pass/fail outcomes used by the decoders and the handlers. */
module Results {

  /** A value that may be missing, where the source would get `null` or throw. */
  datatype Option<+T> = None | Some(value: T)

  /** The result of a check: it passes, or it fails with an error value. */
  datatype Outcome<+E> = Pass | Fail(error: E)
}
