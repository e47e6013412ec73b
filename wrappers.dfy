/** Failure-carrying results shared by the whole model. A Python exception
    raised by the modelled code becomes an `Err` naming the exception class. */
module Wrappers {

  datatype Option<+T> = None | Some(value: T)

  /** The Python exception classes that the modelled code can raise. */
  datatype PyError =
    | AssertionError
    | AttributeError
    | IndexError
    | KeyError
    | NameError
    | TypeError
    | ValueError
    | ZeroDivisionError
    | OverflowError
    | UnicodeEncodeError
    | NotImplementedError
    | BeersException(message: string)

  datatype Result<+T> = Ok(value: T) | Err(error: PyError) {
    predicate IsFailure() { Err? }

    function PropagateFailure<U>(): Result<U>
      requires Err?
    {
      Err(error)
    }

    function Extract(): T
      requires Ok?
    {
      value
    }
  }
}
