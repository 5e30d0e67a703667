/** Optional values and pass/fail outcomes, used for the harness's optional
    fields and for the errors its asynchronous operations throw. */
module Wrappers {

  datatype Option<+T> = None | Some(value: T)

  /** The outcome of an operation that either completes or throws `error`. */
  datatype Outcome<+E> = Pass | Fail(error: E)
}
