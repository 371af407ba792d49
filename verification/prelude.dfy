/** Small shared vocabulary: an optional value and integer clamps. */
module Prelude {

  /** A value that may be absent, as Python's `None` or a failed match. */
  datatype Option<+T> = None | Some(value: T)

  function Max(a: int, b: int): int
  {
    if a >= b then a else b
  }

  function Min(a: int, b: int): int
  {
    if a <= b then a else b
  }
}
