/** The kernel's panic never returns: an operation either is done with a value or has halted the machine. */
module Outcomes {
  datatype Option<+T> = None | Some(value: T)

  datatype Outcome<+T> = Halted | Done(value: T) {
    predicate IsFailure() { Halted? }
    function PropagateFailure<U>(): Outcome<U>
      requires Halted?
    {
      Halted
    }
    function Extract(): T
      requires Done?
    {
      value
    }
  }
}
