/** Results of code that may stop on an explicit `panic`. */
module Outcomes {

  datatype Outcome<+T> = Panic | Done(value: T) {

    predicate IsFailure() {
      Panic?
    }

    function PropagateFailure<U>(): Outcome<U>
      requires Panic?
    {
      Panic
    }

    function Extract(): T
      requires Done?
    {
      value
    }
  }

  datatype Option<+T> = None | Some(value: T)
}
