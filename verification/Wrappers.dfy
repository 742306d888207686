/** Failure-compatible datatypes shared by the whole project. */
module Wrappers {

  /** None stands for a Python exception or an absent value, as the using module says. */
  datatype Option<+T> = None | Some(value: T) {

    predicate IsFailure() {
      None?
    }

    function PropagateFailure<U>(): Option<U>
      requires None?
    {
      None
    }

    function Extract(): T
      requires Some?
    {
      value
    }
  }
}
