/** The optional value and the minimum the other modules share. */
module Util {

  datatype Option<+T> = None | Some(value: T)

  function Min(a: int, b: int): int { if a <= b then a else b }
}
