/** Result and option types shared by the modules. */
module Wrappers {

  datatype Option<+T> = None | Some(value: T)

  /** A Go pair (value, error): exactly one of the two is meaningful. */
  datatype Result<+T, +E> = Ok(value: T) | Err(error: E)

  /** The result of an effect: the process saw its outcome, or died around it. */
  datatype Step<+T> = Alive(value: T) | Died {
    predicate IsFailure() { Died? }
    function PropagateFailure<U>(): Step<U> requires Died? { Died }
    function Extract(): T requires Alive? { value }
  }
}
