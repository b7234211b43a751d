/** Failure-carrying datatypes shared by the model.
    - Option<T> stands for Python's "value or None".
    - Except<T> stands for "returns normally or raises": the scrapers either let a
      Python exception escape or turn it into a `False`/`None` return, and the model
      keeps the exception visible so that each caller can decide which.
 */
module Wrappers {

  datatype Option<+T> = None | Some(value: T) {

    /** With the next two, lets `:-` pass a `None` on. */
    predicate IsFailure() {
      None?
    }

    function PropagateFailure<U>(): Option<U>
      requires None?
    {
      None
    }

    function Extract(): T
      requires Some?
    {
      value
    }
  }

  /** The Python exceptions the modelled code can raise. */
  datatype PyError =
    | KeyError(key: string)  // a `d[key]` lookup of a missing key
    | TypeError              // an `in` test or an iteration on a value that does not support it
    | AttributeError         // a string method called on a value that is not a string

  datatype Except<+T> = Ok(value: T) | Raise(error: PyError)
}
