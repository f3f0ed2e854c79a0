/** Small shared datatypes. */
module Wrappers {

  /** A value that may be missing: Python's `None` or a failed operation. */
  datatype Option<+T> = None | Some(value: T)

  function Min(a: int, b: int): (m: int)
    ensures m <= a && m <= b && (m == a || m == b)
  {
    if a <= b then a else b
  }
}
