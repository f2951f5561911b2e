/** Small value types shared by every component model. */
module Basics {
  newtype byte = x: int | 0 <= x < 256

  type Bytes = seq<byte>

  datatype Option<+T> = None | Some(value: T)

  /** The result of an operation that may report an error; what went wrong is not modelled. */
  datatype Result<+T> = Ok(value: T) | Err

  /** A named file of a container, with its content. */
  datatype File = File(name: string, mediaType: string, text: string)

  /** The outcome of an operation during which the process may die.
      `:-` propagates the death and hands on everything else. */
  datatype Step<+T> = Crashed | Done(value: T) {
    predicate IsFailure() { Crashed? }

    function PropagateFailure<U>(): Step<U>
      requires Crashed?
    {
      Crashed
    }

    function Extract(): T
      requires Done?
    {
      value
    }
  }
}
