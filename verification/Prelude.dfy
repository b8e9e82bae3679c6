/** Small datatypes and arithmetic shared by every module. */
module Prelude {
  datatype Option<+T> = None | Some(value: T)

  /** The outcome of a service call: a value, or the exception that rolled it back. */
  datatype Result<+T, +E> = Ok(value: T) | Err(error: E)

  function Min(a: int, b: int): int {
    if a <= b then a else b
  }

  function Max(a: int, b: int): int {
    if a <= b then b else a
  }

  /** Truncated subtraction, Math.max(0, a - b). */
  function Monus(a: int, b: int): nat {
    if a <= b then 0 else a - b
  }

  /** A JavaScript `map.get(k) ?? 0`. */
  function Get(m: map<nat, nat>, k: nat): nat {
    if k in m then m[k] else 0
  }
}
