/** Datatypes and totals shared by the models. */
module Basics {

  datatype Option<+T> = None | Some(value: T)

  /** A point in time, or a span of it, in nanoseconds. */
  type Time = int

  function Without<K, V>(m: map<K, V>, k: K): map<K, V> {
    map x | x in m && x != k :: m[x]
  }

  function Min(a: int, b: int): int {
    if a <= b then a else b
  }

  function Max(a: int, b: int): int {
    if a <= b then b else a
  }
}
