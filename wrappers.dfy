/** Optional values, standing in for Python's `None` and for the float
    sentinel `-inf` that the handler uses for "never sent". */
module Wrappers {

  datatype Option<+T> = None | Some(value: T)

  function Min(a: int, b: int): int
  {
    if a <= b then a else b
  }

  function Max(a: int, b: int): int
  {
    if a >= b then a else b
  }
}
