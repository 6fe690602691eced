/**
 * Small shared helpers: a value that may be missing (an unopenable file, a
 * rejected argument list) and the smaller of two counts (a trim count
 * clamped to a line's length).
 */
module Wrappers {
  datatype Option<+T> = None | Some(value: T)

  function Min(a: nat, b: nat): nat
  {
    if a < b then a else b
  }
}
