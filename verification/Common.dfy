/** Shapes shared by the whole model: optional values, and results that may be a thrown error. */
module Common {
  datatype Option<+T> = None | Some(value: T)

  /** The value an operation returned, or the error it threw. */
  datatype Result<+T, +E> = Ok(value: T) | Thrown(error: E)

  /** The value under a key, if there is one. */
  function Lookup<V>(entries: map<string, V>, key: string): Option<V> {
    if key in entries then Some(entries[key]) else None
  }

  function Min(a: int, b: int): int {
    if a < b then a else b
  }

  function Max(a: int, b: int): int {
    if a < b then b else a
  }
}
