/** Optional values and Python outcomes, shared by the models. */
module Wrappers {

  datatype Option<+T> = None | Some(value: T)

  /** The exceptions the generated Python can raise. */
  datatype PyError =
    | ValueError
    | TypeError
    | OverflowError
    | AttributeError
    | NameError
    | UnmodelledText   // a spelling only Python's own number parsers decide
    | Hidden           // a name the generated code uses means something of the schema's

  /** The outcome of evaluating Python: a value or an exception. */
  datatype Outcome<+T> = Ok(value: T) | Raise(error: PyError) {
    predicate IsFailure() {
      Raise?
    }
    function PropagateFailure<U>(): Outcome<U>
      requires Raise?
    {
      Raise(error)
    }
    function Extract(): T
      requires Ok?
    {
      value
    }
  }
}
