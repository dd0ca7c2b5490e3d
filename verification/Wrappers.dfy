/** Result shapes shared by the modelled components. */
module Wrappers {

  type byte = x: int | 0 <= x < 256

  datatype Option<+T> = None | Some(value: T) {
    predicate IsFailure() {
      None?
    }

    function PropagateFailure<U>(): Option<U>
      requires None?
    {
      None
    }

    function Extract(): T
      requires Some?
    {
      value
    }
  }

  /** A computation that either returns or stops with a run-time panic. */
  datatype Outcome<+T> = Done(value: T) | Panicked {
    predicate IsFailure() {
      Panicked?
    }

    function PropagateFailure<U>(): Outcome<U>
      requires Panicked?
    {
      Panicked
    }

    function Extract(): T
      requires Done?
    {
      value
    }
  }
}
