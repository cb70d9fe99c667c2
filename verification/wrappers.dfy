/** Outcomes shared by the modules: a value that may be missing, and a value
    or the error that took its place. */
module Wrappers {

  /** Some(v) when there is a value (a flag given on the command line, a
      filter installed on a level, a key that decodes); None when there is not. */
  datatype Option<T> = None | Some(value: T)

  /** The value in o when there is one, else `fallback`: a flag that was never
      given keeps its default. */
  function ValueOr<T>(o: Option<T>, fallback: T): T {
    if o.Some? then o.value else fallback
  }

  /** Success(v) when a step finished with v; Failure(e) when e stopped it. */
  datatype Result<T, E> = Success(value: T) | Failure(error: E)
}
