/** Small definitions shared by all modules. */
module Basics {

  datatype Option<T> = None | Some(value: T)

  function Least(a: int, b: int): int {
    if a < b then a else b
  }

  function Most(a: int, b: int): int {
    if a < b then b else a
  }
}
