/** Result shapes shared by the models. */
module Wrappers {
  datatype Option<+T> = None | Some(value: T)

  /** What a Go call leaves behind: a value, a returned error, or a panic. */
  datatype Outcome<+T> = Done(value: T) | Error | Panic {
    predicate IsFailure() {
      !Done?
    }

    function PropagateFailure<U>(): Outcome<U>
      requires IsFailure()
    {
      if Error? then Error else Panic
    }

    function Extract(): T
      requires !IsFailure()
    {
      value
    }
  }
}
