/** Shared helper datatypes. */
module Common {

  /** A value that may be absent, used where the C++ code uses a null pointer. */
  datatype Option<T> = None | Some(value: T)

  function Min(a: int, b: int): int { if a <= b then a else b }

  function Max(a: int, b: int): int { if a >= b then a else b }
}
