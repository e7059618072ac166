/** Optional values and the one kind of failure the modelled JavaScript can raise. */
module Wrappers {

  /** `None` stands for JavaScript's `null`/`undefined` or for "nothing found". */
  datatype Option<+T> = None | Some(value: T)

  /** The result of code that may throw. The only exception the modelled code can raise
      is a `TypeError` (a string method called on a value that is not a string), and the
      caller catches every exception the same way, so one failure constructor is enough. */
  datatype Result<+T> = Ok(value: T) | Throws
  {
    predicate IsFailure() {
      Throws?
    }

    function PropagateFailure<U>(): Result<U>
      requires Throws?
    {
      Throws
    }

    function Extract(): T
      requires Ok?
    {
      value
    }
  }
}
