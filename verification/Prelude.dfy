/** Definitions shared by every component. */
module Prelude {

  /** A value the broker, the database or the caller may or may not have supplied. */
  datatype Option<+T> = None | Some(value: T) {

    /** This value when there is one, otherwise `other`. */
    function OrElse(other: Option<T>): Option<T> {
      if Some? then this else other
    }
  }

  function Max(a: int, b: int): int {
    if a < b then b else a
  }

  function Min(a: int, b: int): int {
    if a < b then a else b
  }
}
