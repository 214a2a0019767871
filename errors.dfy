/** The exceptions the renderer can raise, and the result type that carries them. */
module Errors {

  /** One constructor per exception kind raised by the renderer's core. */
  datatype Error =
    | ArgError(parentId: int, childId: int)   // a line between two unrelated nodes
    | EnumValueError(index: int)              // a palette index outside the colour table
    | IndexError                              // `parent_ids[0]` on an empty list
    | ZeroDivisionError                       // a render with no phases

  datatype Result<+T> = Ok(value: T) | Err(error: Error) {
    predicate IsFailure() { Err? }

    function PropagateFailure<U>(): Result<U>
      requires Err?
    {
      Err(error)
    }

    function Extract(): T
      requires Ok?
    {
      value
    }
  }
}
