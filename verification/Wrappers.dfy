/** Outcomes of operations that may find nothing or fail. */
module Wrappers {
  datatype Option<+T> = None | Some(value: T)

  datatype Result<+T, +E> = Ok(value: T) | Err(error: E)

  function Get<K, T>(m: map<K, T>, k: K): Option<T> {
    if k in m then Some(m[k]) else None
  }

  function OrEmpty(text: Option<string>): string {
    if text.Some? then text.value else ""
  }
}
