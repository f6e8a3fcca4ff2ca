/** Option and Result datatypes shared by the whole model. A `Result` stands
    for a Python call that either returns a value or raises an exception. */
module Wrappers {

  datatype Option<+T> = None | Some(value: T) {

    /** Python's `d.get(key, default)` once the lookup is an Option. */
    function GetOr(default: T): (r: T)
      ensures Some? ==> r == value
      ensures None? ==> r == default
    {
      if Some? then value else default
    }
  }

  datatype Result<+T, +E> = Ok(value: T) | Err(error: E) {

    predicate IsFailure() {
      Err?
    }

    function PropagateFailure<U>(): Result<U, E>
      requires Err?
    {
      Err(error)
    }

    function Extract(): T
      requires Ok?
    {
      value
    }
  }
}
