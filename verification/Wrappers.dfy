/** The conventional optional value, usable with `:-`. */
module Wrappers {
  datatype Option<+T> = None | Some(value: T) {
    predicate IsFailure() { None? }

    function PropagateFailure<U>(): Option<U>
      requires None?
    {
      None
    }

    function Extract(): T
      requires Some?
    {
      value
    }

    function UnwrapOr(other: T): T {
      if Some? then value else other
    }
  }

  /** Nothing less than 0. */
  function Max0(n: int): nat {
    if n < 0 then 0 else n
  }
}
