/**
 Failure-carrying values shared by every module of the model.

 The Python sources signal failure by raising; each raise the model keeps is
 an `Err` carrying the exception class Python would raise.
 */
module Basics {

  /** The Python exception classes the modelled code can raise. */
  datatype PyError =
    | IndexError      // a list index past the end
    | KeyError        // a missing dictionary key or table column
    | ValueError      // `int()` applied to a string that is not a numeral
    | AttributeError  // `.upper()` applied to a value that is not a string

  datatype Option<+T> = None | Some(value: T)

  datatype Result<+T> = Ok(value: T) | Err(error: PyError) {
    predicate IsFailure() {
      Err?
    }

    function PropagateFailure<U>(): Result<U>
      requires Err?
    {
      Err(error)
    }

    function Extract(): T
      requires Ok?
    {
      value
    }
  }
}
